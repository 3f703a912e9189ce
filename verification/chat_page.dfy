/**
 * The chat page (gui/src/pages/gui/Chat.tsx): its local tab list, kept in
 * step with the current session, the handlers the action bar calls, and the
 * guards in front of sending an input. The Redux session (id, title,
 * history) is read from fields; what the page dispatches is recorded in order.
 */
module ChatPage {
  import opened Wrappers
  import opened Strings
  import opened ChatTypes
  import opened Lists

  /** A tab of the page's own list (it has no session id: its id is the session's). */
  datatype ChatTab = ChatTab(id: string, title: string, timestamp: int, isActive: bool)

  /** A session history entry, as far as the page reads it. */
  datatype HistoryEntry = HistoryEntry(role: Role, conversationSummary: Option<string>)

  /** A pending apply state; only whether it is closed matters here. */
  datatype ApplyState = ApplyState(streamId: string, closed: bool)

  datatype PageAction =
    | LoadSession(sessionId: string, saveCurrentSession: bool)
    | NewSession
    | DeleteSession(sessionId: string)
    | UpdateSession(sessionId: string, title: string, workspaceDirectory: string, history: seq<HistoryEntry>)
    | RefreshSessionMetadata
    | CancelToolCall(toolCallId: string)
    | RejectDiff(streamId: string)
    | StreamEdit
    | StreamResponse(index: Option<nat>)
    | ClearEditor

  // ---------------------------------------------------------------- history queries

  /** `findLatestSummaryIndex`: the last entry with a summary, searched from the end; -1 when there is none. */
  method FindLatestSummaryIndex(history: seq<HistoryEntry>) returns (r: int)
    ensures -1 <= r < |history|
    ensures r == -1 <==> forall j | 0 <= j < |history| :: !Truthy(history[j].conversationSummary)
    ensures r >= 0 ==> Truthy(history[r].conversationSummary)
    ensures r >= 0 ==> forall j | r < j < |history| :: !Truthy(history[j].conversationSummary)
    ensures IsLatestSummaryIndex(history, r)
  {
    var i := |history| - 1;
    while i >= 0
      invariant -1 <= i < |history|
      invariant forall j | i < j < |history| :: !Truthy(history[j].conversationSummary)
      decreases i + 1
    {
      if Truthy(history[i].conversationSummary) {
        return i;
      }
      i := i - 1;
    }
    return -1;
  }

  /** Whether any entry is a user message. */
  predicate AnyUser(entries: seq<HistoryEntry>)
    decreases |entries|
  {
    entries != [] && (entries[0].role == User || AnyUser(entries[1..]))
  }

  /** `isLastUserInput(index)`: no user message comes after `index`. */
  function IsLastUserInput(history: seq<HistoryEntry>, index: nat): (r: bool)
    ensures r <==> forall j | index < j < |history| :: history[j].role != User
  {
    var rest := if index + 1 <= |history| then history[index + 1..] else [];
    NoUserMeansNone(rest);
    assert forall j | index < j < |history| :: history[j] == rest[j - index - 1];
    !AnyUser(rest)
  }

  lemma {:induction false} NoUserMeansNone(entries: seq<HistoryEntry>)
    ensures AnyUser(entries) <==> exists j | 0 <= j < |entries| :: entries[j].role == User
    decreases |entries|
  {
    if entries != [] {
      NoUserMeansNone(entries[1..]);
      assert forall j | 1 <= j < |entries| :: entries[j] == entries[1..][j - 1];
      if exists j | 0 <= j < |entries[1..]| :: entries[1..][j].role == User {
        var j :| 0 <= j < |entries[1..]| && entries[1..][j].role == User;
        assert entries[j + 1].role == User;
      }
    }
  }

  /** The last message of a history is always the last user input. */
  lemma LastEntryIsLastUserInput(history: seq<HistoryEntry>)
    requires history != []
    ensures IsLastUserInput(history, |history| - 1)
  {
  }

  // ---------------------------------------------------------------- tab list updaters

  /** The index of the first tab with that id. */
  function FindChatTab(tabs: seq<ChatTab>, id: string): (r: Option<nat>)
    ensures r.Some? ==> r.value < |tabs| && tabs[r.value].id == id
    ensures r.Some? ==> forall j | 0 <= j < r.value :: tabs[j].id != id
    ensures r.None? ==> forall j | 0 <= j < |tabs| :: tabs[j].id != id
  {
    if tabs == [] then None
    else if tabs[0].id == id then Some(0)
    else match FindChatTab(tabs[1..], id)
      case None => None
      case Some(k) => Some(k + 1)
  }

  /** The title of the n-th automatically created tab. */
  function AutoTitle(n: nat): string {
    "Chat " + NatToString(n)
  }

  /**
   * The tab-creation updater: a session without a tab gets a new active one,
   * titled after the tab count; an existing tab is made the only active one,
   * and a list where that already holds comes back unchanged.
   */
  function CreateTabUpdate(prev: seq<ChatTab>, sessionId: string, now: int): (r: seq<ChatTab>)
    ensures FindChatTab(prev, sessionId).None? ==>
      |r| == |prev| + 1
      && (forall i | 0 <= i < |prev| :: r[i] == prev[i].(isActive := false))
      && r[|prev|] == ChatTab(sessionId, AutoTitle(|prev| + 1), now, true)
    ensures FindChatTab(prev, sessionId).Some? ==>
      (r == prev <==> prev[FindChatTab(prev, sessionId).value].isActive && OnlySessionActive(prev, sessionId))
    ensures FindChatTab(prev, sessionId).Some? && r != prev ==>
      |r| == |prev| && forall i | 0 <= i < |prev| :: r[i] == prev[i].(isActive := prev[i].id == sessionId)
  {
    match FindChatTab(prev, sessionId)
    case None =>
      seq(|prev|, i requires 0 <= i < |prev| => prev[i].(isActive := false))
      + [ChatTab(sessionId, AutoTitle(|prev| + 1), now, true)]
    case Some(e) =>
      var needsActivation := !prev[e].isActive || exists j | 0 <= j < |prev| :: prev[j].id != sessionId && prev[j].isActive;
      if !needsActivation then prev
      else
        var r := seq(|prev|, i requires 0 <= i < |prev| => prev[i].(isActive := prev[i].id == sessionId));
        assert r != prev by {
          if !prev[e].isActive {
            assert r[e] != prev[e];
          } else {
            var j :| 0 <= j < |prev| && prev[j].id != sessionId && prev[j].isActive;
            assert r[j] != prev[j];
          }
        }
        r
  }

  /** No tab of another session is active. */
  predicate OnlySessionActive(tabs: seq<ChatTab>, sessionId: string) {
    forall j | 0 <= j < |tabs| && tabs[j].id != sessionId :: !tabs[j].isActive
  }

  /** After the tab-creation updater, the session's tab is active and no other session's tab is. */
  lemma CreateTabActivatesSession(prev: seq<ChatTab>, sessionId: string, now: int)
    ensures var r := CreateTabUpdate(prev, sessionId, now);
      && (forall i | 0 <= i < |r| && r[i].isActive :: r[i].id == sessionId)
      && FindChatTab(r, sessionId).Some?
      && r[FindChatTab(r, sessionId).value].isActive
  {
    var r := CreateTabUpdate(prev, sessionId, now);
    match FindChatTab(prev, sessionId)
    case None =>
      assert r[|prev|].id == sessionId;
      assert forall j | 0 <= j < |prev| :: r[j].id == prev[j].id;
      assert FindChatTab(r, sessionId) == Some(|prev|) by {
        FindChatTabPrefix(r, sessionId, |prev|);
      }
    case Some(e) =>
      assert forall j | 0 <= j < |prev| :: r[j].id == prev[j].id;
      FindChatTabSameIds(prev, r, sessionId);
  }

  /** The first match lies past a prefix without the id. */
  lemma {:induction false} FindChatTabPrefix(tabs: seq<ChatTab>, id: string, k: nat)
    requires k < |tabs| && tabs[k].id == id
    requires forall j | 0 <= j < k :: tabs[j].id != id
    ensures FindChatTab(tabs, id) == Some(k)
    decreases k
  {
    if k > 0 {
      FindChatTabPrefix(tabs[1..], id, k - 1);
    }
  }

  /** Running the tab-creation updater again changes nothing. */
  lemma CreateTabIdempotent(prev: seq<ChatTab>, sessionId: string, now: int, later: int)
    ensures var r := CreateTabUpdate(prev, sessionId, now);
      CreateTabUpdate(r, sessionId, later) == r
  {
    CreateTabActivatesSession(prev, sessionId, now);
  }

  /**
   * The title updater: when the session's tab exists and its title differs,
   * the tabs with that id get the new title and nothing else changes;
   * otherwise the list comes back unchanged.
   */
  function TitleUpdate(prev: seq<ChatTab>, sessionId: string, title: string): (r: seq<ChatTab>)
    ensures |r| == |prev|
    ensures FindChatTab(prev, sessionId).None? || prev[FindChatTab(prev, sessionId).value].title == title ==> r == prev
    ensures forall i | 0 <= i < |prev| && prev[i].id != sessionId :: r[i] == prev[i]
    ensures forall i | 0 <= i < |prev| && prev[i].id == sessionId :: r[i] == prev[i] || r[i] == prev[i].(title := title)
    ensures FindChatTab(prev, sessionId).Some? ==> r[FindChatTab(prev, sessionId).value].title == title
  {
    match FindChatTab(prev, sessionId)
    case None => prev
    case Some(e) =>
      if prev[e].title == title then prev
      else seq(|prev|, i requires 0 <= i < |prev| => if prev[i].id == sessionId then prev[i].(title := title) else prev[i])
  }

  /** Renaming a tab to the title it was just given changes nothing. */
  lemma TitleUpdateIdempotent(prev: seq<ChatTab>, sessionId: string, title: string)
    ensures TitleUpdate(TitleUpdate(prev, sessionId, title), sessionId, title) == TitleUpdate(prev, sessionId, title)
  {
    var r := TitleUpdate(prev, sessionId, title);
    if FindChatTab(prev, sessionId).Some? {
      var e := FindChatTab(prev, sessionId).value;
      assert FindChatTab(r, sessionId) == Some(e) by {
        assert forall j | 0 <= j < |r| :: r[j].id == prev[j].id;
        FindChatTabSameIds(prev, r, sessionId);
      }
    }
  }

  lemma {:induction false} FindChatTabSameIds(a: seq<ChatTab>, b: seq<ChatTab>, id: string)
    requires |a| == |b| && forall j | 0 <= j < |a| :: a[j].id == b[j].id
    ensures FindChatTab(a, id) == FindChatTab(b, id)
    decreases |a|
  {
    if a != [] {
      FindChatTabSameIds(a[1..], b[1..], id);
    }
  }

  function ChatTabNotId(id: string): ChatTab -> bool {
    (t: ChatTab) => t.id != id
  }

  /** The tabs left after closing or deleting `id`, in order. */
  function WithoutTab(tabs: seq<ChatTab>, id: string): (r: seq<ChatTab>)
    ensures forall t | t in r :: t in tabs && t.id != id
    ensures forall i | 0 <= i < |tabs| && tabs[i].id != id :: tabs[i] in r
    ensures forall t | t in tabs && t.id != id :: multiset(r)[t] == multiset(tabs)[t]
    ensures IsSublist(r, tabs)
  {
    FilterIsSublist(tabs, ChatTabNotId(id));
    FilterCounts(tabs, ChatTabNotId(id));
    Filter(tabs, ChatTabNotId(id))
  }

  /** An entry of the history marked as coming before the latest summary (rendered dimmed). */
  function IsBeforeLatestSummary(latestSummaryIndex: int, index: nat): (r: bool)
    ensures r ==> latestSummaryIndex > 0
    ensures r <==> latestSummaryIndex != -1 && index < latestSummaryIndex
  {
    latestSummaryIndex != -1 && index < latestSummaryIndex
  }

  /** `r` is what `findLatestSummaryIndex` answers for `history`. */
  predicate IsLatestSummaryIndex(history: seq<HistoryEntry>, r: int) {
    && -1 <= r < |history|
    && (r == -1 <==> forall j | 0 <= j < |history| :: !Truthy(history[j].conversationSummary))
    && (r >= 0 ==> Truthy(history[r].conversationSummary))
    && (r >= 0 ==> forall j | r < j < |history| :: !Truthy(history[j].conversationSummary))
  }

  /** An entry is dimmed exactly when a later entry of the history carries a summary. */
  lemma DimmedIffSummaryLater(history: seq<HistoryEntry>, r: int, index: nat)
    requires IsLatestSummaryIndex(history, r)
    ensures IsBeforeLatestSummary(r, index) <==> exists j | index < j < |history| :: Truthy(history[j].conversationSummary)
  {
    if exists j | index < j < |history| :: Truthy(history[j].conversationSummary) {
      var j :| index < j < |history| && Truthy(history[j].conversationSummary);
      assert r >= j;
    }
  }

  // ---------------------------------------------------------------- the page

  class ChatPageState {
    var chatTabs: seq<ChatTab>
    var sessionId: string
    var sessionTitle: string
    var history: seq<HistoryEntry>
    /** The first open workspace folder, or "" when none is open. */
    var workspaceDirectory: string
    var isHistoryOpen: bool
    var dispatched: seq<PageAction>

    constructor(sessionId: string, sessionTitle: string, history: seq<HistoryEntry>, workspacePaths: seq<string>)
      ensures this.sessionId == sessionId && this.sessionTitle == sessionTitle && this.history == history
      ensures workspaceDirectory == if |workspacePaths| > 0 then workspacePaths[0] else ""
      ensures chatTabs == [] && !isHistoryOpen && dispatched == []
    {
      this.sessionId := sessionId;
      this.sessionTitle := sessionTitle;
      this.history := history;
      workspaceDirectory := if |workspacePaths| > 0 then workspacePaths[0] else "";
      chatTabs := [];
      isHistoryOpen := false;
      dispatched := [];
    }

    /** The effect on history length and session id: create or activate the session's tab. */
    method OnHistoryOrSessionChange(now: int)
      modifies this
      ensures sessionId == old(sessionId) && sessionTitle == old(sessionTitle) && history == old(history)
      ensures workspaceDirectory == old(workspaceDirectory)
      ensures isHistoryOpen == old(isHistoryOpen) && dispatched == old(dispatched)
      ensures |history| > 0 && sessionId != "" ==> chatTabs == CreateTabUpdate(old(chatTabs), sessionId, now)
      ensures !(|history| > 0 && sessionId != "") ==> chatTabs == old(chatTabs)
    {
      if |history| > 0 && sessionId != "" {
        chatTabs := CreateTabUpdate(chatTabs, sessionId, now);
      }
    }

    /** The effect on session title and id: bring the session's tab title up to date. */
    method OnTitleOrSessionChange()
      modifies this
      ensures sessionId == old(sessionId) && sessionTitle == old(sessionTitle) && history == old(history)
      ensures workspaceDirectory == old(workspaceDirectory)
      ensures isHistoryOpen == old(isHistoryOpen) && dispatched == old(dispatched)
      ensures sessionTitle != "" && sessionId != "" ==> chatTabs == TitleUpdate(old(chatTabs), sessionId, sessionTitle)
      ensures !(sessionTitle != "" && sessionId != "") ==> chatTabs == old(chatTabs)
    {
      if sessionTitle != "" && sessionId != "" {
        chatTabs := TitleUpdate(chatTabs, sessionId, sessionTitle);
      }
    }

    /** `handleTabSelect`: load another session, saving the current one. */
    method HandleTabSelect(tabId: string)
      modifies this
      ensures sessionId == old(sessionId) && sessionTitle == old(sessionTitle) && history == old(history)
      ensures workspaceDirectory == old(workspaceDirectory)
      ensures chatTabs == old(chatTabs) && isHistoryOpen == old(isHistoryOpen)
      ensures dispatched == old(dispatched) + (if tabId != sessionId then [LoadSession(tabId, true)] else [])
    {
      if tabId != sessionId {
        dispatched := dispatched + [LoadSession(tabId, true)];
      }
    }

    /**
     * `handleTabClose`: drop the tab; closing the current session moves to the
     * first remaining tab, and closing the last tab starts a new session.
     */
    method HandleTabClose(tabId: string)
      modifies this
      ensures sessionId == old(sessionId) && sessionTitle == old(sessionTitle) && history == old(history)
      ensures workspaceDirectory == old(workspaceDirectory)
      ensures isHistoryOpen == old(isHistoryOpen)
      ensures chatTabs == WithoutTab(old(chatTabs), tabId)
      ensures tabId == sessionId && chatTabs != [] ==> dispatched == old(dispatched) + [LoadSession(chatTabs[0].id, false)]
      ensures chatTabs == [] ==> dispatched == old(dispatched) + [NewSession]
      ensures tabId != sessionId && chatTabs != [] ==> dispatched == old(dispatched)
    {
      var remainingTabs := WithoutTab(chatTabs, tabId);
      if tabId == sessionId && |remainingTabs| > 0 {
        dispatched := dispatched + [LoadSession(remainingTabs[0].id, false)];
      } else if |remainingTabs| == 0 {
        dispatched := dispatched + [NewSession];
      }
      chatTabs := remainingTabs;
    }

    /** `handleSessionDelete`: delete the session and drop its tab. */
    method HandleSessionDelete(id: string)
      modifies this
      ensures sessionId == old(sessionId) && sessionTitle == old(sessionTitle) && history == old(history)
      ensures workspaceDirectory == old(workspaceDirectory)
      ensures isHistoryOpen == old(isHistoryOpen)
      ensures dispatched == old(dispatched) + [DeleteSession(id)]
      ensures chatTabs == WithoutTab(old(chatTabs), id)
    {
      dispatched := dispatched + [DeleteSession(id)];
      chatTabs := WithoutTab(chatTabs, id);
    }

    /** `handleTitleChange`: save a non-empty, different title for the current session. */
    method HandleTitleChange(newTitle: string)
      modifies this
      ensures chatTabs == old(chatTabs)
      ensures sessionId == old(sessionId) && sessionTitle == old(sessionTitle) && history == old(history)
      ensures workspaceDirectory == old(workspaceDirectory)
      ensures isHistoryOpen == old(isHistoryOpen)
      ensures dispatched == old(dispatched) +
        (if sessionId != "" && newTitle != "" && newTitle != sessionTitle then [UpdateSession(sessionId, newTitle, workspaceDirectory, history)] else [])
    {
      if sessionId != "" && newTitle != "" && newTitle != sessionTitle {
        dispatched := dispatched + [UpdateSession(sessionId, newTitle, workspaceDirectory, history)];
      }
    }

    /** `handleSessionEdit`: only an edit of the current session is saved. */
    method HandleSessionEdit(editSessionId: string, newTitle: string)
      modifies this
      ensures chatTabs == old(chatTabs)
      ensures sessionId == old(sessionId) && sessionTitle == old(sessionTitle) && history == old(history)
      ensures workspaceDirectory == old(workspaceDirectory)
      ensures isHistoryOpen == old(isHistoryOpen)
      ensures dispatched == old(dispatched) +
        (if editSessionId == sessionId && sessionId != "" && newTitle != "" && newTitle != sessionTitle
         then [UpdateSession(sessionId, newTitle, workspaceDirectory, history)] else [])
    {
      if editSessionId == sessionId {
        HandleTitleChange(newTitle);
      }
    }

    /** `handleTabTitleEdit`: rename the tab, and save the title when it is the current session's. */
    method HandleTabTitleEdit(tabId: string, newTitle: string)
      modifies this
      ensures sessionId == old(sessionId) && sessionTitle == old(sessionTitle) && history == old(history)
      ensures workspaceDirectory == old(workspaceDirectory)
      ensures isHistoryOpen == old(isHistoryOpen)
      ensures |chatTabs| == |old(chatTabs)|
      ensures forall i | 0 <= i < |chatTabs| ::
        chatTabs[i] == if old(chatTabs)[i].id == tabId then old(chatTabs)[i].(title := newTitle) else old(chatTabs)[i]
      ensures dispatched == old(dispatched) +
        (if tabId == sessionId && sessionId != "" && newTitle != "" && newTitle != sessionTitle
         then [UpdateSession(sessionId, newTitle, workspaceDirectory, history)] else [])
    {
      var tabs := chatTabs;
      chatTabs := seq(|tabs|, i requires 0 <= i < |tabs| =>
        if tabs[i].id == tabId then tabs[i].(title := newTitle) else tabs[i]);
      if tabId == sessionId {
        HandleTitleChange(newTitle);
      }
    }

    /** `handleSessionSelect`: close the history and load another session. */
    method HandleSessionSelect(selectedSessionId: string)
      modifies this
      ensures sessionId == old(sessionId) && sessionTitle == old(sessionTitle) && history == old(history)
      ensures workspaceDirectory == old(workspaceDirectory)
      ensures chatTabs == old(chatTabs) && !isHistoryOpen
      ensures dispatched == old(dispatched) + (if selectedSessionId != sessionId then [LoadSession(selectedSessionId, true)] else [])
    {
      isHistoryOpen := false;
      if selectedSessionId != sessionId {
        dispatched := dispatched + [LoadSession(selectedSessionId, true)];
      }
    }

    /** `handleToggleHistory`: opening the history refreshes the session list first. */
    method HandleToggleHistory()
      modifies this
      ensures sessionId == old(sessionId) && sessionTitle == old(sessionTitle) && history == old(history)
      ensures workspaceDirectory == old(workspaceDirectory)
      ensures chatTabs == old(chatTabs) && isHistoryOpen == !old(isHistoryOpen)
      ensures dispatched == old(dispatched) + (if old(isHistoryOpen) then [] else [RefreshSessionMetadata])
    {
      if !isHistoryOpen {
        dispatched := dispatched + [RefreshSessionMetadata];
      }
      isHistoryOpen := !isHistoryOpen;
    }

    /**
     * `sendInput`: cancel the pending tool calls and reject the open apply
     * states; then, given a model (and code to edit in edit mode), start the
     * edit or the chat response and clear the editor.
     */
    method SendInput(pendingToolCalls: seq<string>, applyStates: seq<ApplyState>, isInEdit: bool,
                     hasModel: bool, codeToEditCount: nat, index: Option<nat>, hasEditorToClear: bool)
      modifies this
      ensures sessionId == old(sessionId) && sessionTitle == old(sessionTitle) && history == old(history)
      ensures workspaceDirectory == old(workspaceDirectory)
      ensures chatTabs == old(chatTabs) && isHistoryOpen == old(isHistoryOpen)
      ensures dispatched == old(dispatched) + CancelsOf(pendingToolCalls) + RejectOpen(applyStates)
        + StreamAfterCleanup(isInEdit, hasModel, codeToEditCount, index, hasEditorToClear)
    {
      var cancels := CancelAll(pendingToolCalls);
      dispatched := dispatched + cancels;
      var rejected := RejectAllOpen(applyStates);
      dispatched := dispatched + rejected;
      if !hasModel {
        return;
      }
      if isInEdit && codeToEditCount == 0 {
        return;
      }
      if isInEdit {
        dispatched := dispatched + [StreamEdit];
      } else {
        dispatched := dispatched + [StreamResponse(index)];
        if hasEditorToClear {
          dispatched := dispatched + [ClearEditor];
        }
      }
    }
  }

  /** One `cancelToolCall` per pending tool call, in order. */
  function CancelsOf(pendingToolCalls: seq<string>): (r: seq<PageAction>)
    ensures |r| == |pendingToolCalls|
    ensures forall i | 0 <= i < |r| :: r[i] == CancelToolCall(pendingToolCalls[i])
  {
    seq(|pendingToolCalls|, i requires 0 <= i < |pendingToolCalls| => CancelToolCall(pendingToolCalls[i]))
  }

  /**
   * What follows the clean-up: nothing without a model or in edit mode with
   * no code to edit; the edit stream in edit mode; otherwise the chat stream,
   * then the editor is cleared when there is one.
   */
  function StreamAfterCleanup(isInEdit: bool, hasModel: bool, codeToEditCount: nat, index: Option<nat>, hasEditorToClear: bool): (r: seq<PageAction>)
    ensures !hasModel ==> r == []
    ensures hasModel && isInEdit ==> r == (if codeToEditCount == 0 then [] else [StreamEdit])
    ensures hasModel && !isInEdit ==> r != [] && r[0] == StreamResponse(index) && (ClearEditor in r <==> hasEditorToClear)
  {
    if !hasModel || (isInEdit && codeToEditCount == 0) then []
    else if isInEdit then [StreamEdit]
    else [StreamResponse(index)] + (if hasEditorToClear then [ClearEditor] else [])
  }

  method CancelAll(pendingToolCalls: seq<string>) returns (cancels: seq<PageAction>)
    ensures cancels == CancelsOf(pendingToolCalls)
  {
    cancels := [];
    for i := 0 to |pendingToolCalls|
      invariant cancels == seq(i, k requires 0 <= k < i => CancelToolCall(pendingToolCalls[k]))
    {
      cancels := cancels + [CancelToolCall(pendingToolCalls[i])];
    }
  }

  /** One `rejectDiff` per apply state that is not closed, in order. */
  method RejectAllOpen(applyStates: seq<ApplyState>) returns (rejected: seq<PageAction>)
    ensures rejected == RejectOpen(applyStates)
  {
    rejected := [];
    for i := 0 to |applyStates|
      invariant rejected == RejectOpen(applyStates[..i])
    {
      if !applyStates[i].closed {
        rejected := rejected + [RejectDiff(applyStates[i].streamId)];
      }
      RejectOpenAppend(applyStates[..i], applyStates[i]);
      assert applyStates[..i + 1] == applyStates[..i] + [applyStates[i]];
    }
    assert applyStates[..|applyStates|] == applyStates;
  }

  /** The diffs rejected before sending: one per apply state that is not closed, in order. */
  function RejectOpen(states: seq<ApplyState>): (r: seq<PageAction>)
    ensures |r| <= |states|
  {
    if states == [] then []
    else (if !states[0].closed then [RejectDiff(states[0].streamId)] else []) + RejectOpen(states[1..])
  }

  lemma {:induction false} RejectOpenAppend(states: seq<ApplyState>, s: ApplyState)
    ensures RejectOpen(states + [s]) == RejectOpen(states) + (if !s.closed then [RejectDiff(s.streamId)] else [])
    decreases |states|
  {
    if states == [] {
      assert states + [s] == [s];
    } else {
      assert (states + [s])[1..] == states[1..] + [s];
      RejectOpenAppend(states[1..], s);
    }
  }

  /** Exactly the open apply states get a rejection: every rejection names an open stream, and every open stream is rejected. */
  lemma {:induction false} RejectOpenExactly(states: seq<ApplyState>)
    ensures forall a | a in RejectOpen(states) :: a.RejectDiff? && exists s | s in states :: !s.closed && s.streamId == a.streamId
    ensures forall s | s in states && !s.closed :: RejectDiff(s.streamId) in RejectOpen(states)
    decreases |states|
  {
    if states != [] {
      var tail := states[1..];
      RejectOpenExactly(tail);
      var head := if !states[0].closed then [RejectDiff(states[0].streamId)] else [];
      assert RejectOpen(states) == head + RejectOpen(tail);
      forall a | a in RejectOpen(states)
        ensures a.RejectDiff? && exists s | s in states :: !s.closed && s.streamId == a.streamId
      {
        if a in head {
          assert states[0] in states;
        } else {
          var s :| s in tail && !s.closed && s.streamId == a.streamId;
          assert s in states;
        }
      }
      forall s | s in states && !s.closed
        ensures RejectDiff(s.streamId) in RejectOpen(states)
      {
        if s != states[0] {
          assert s in tail;
        }
      }
    }
  }
}
