# Chat orchestration and chat UI state, modelled in Dafny

This project models the core of a VS Code chat extension: the chat turn orchestrator and its RAG (retrieval) augmentation, the tool-call continuation thunk, and the state of the chat screen.
- The chat turn orchestrator is `llmStreamChat`.
- The chat-screen state covers the tab slice and the chat page's tab list, the session history dropdown and sidebar, the tab and session title editors, the chat container's backup restore, the relative time labels with their refresh timer, the tab backup manager, the toast store, the RAG context provider, the personal-token settings dialog and the MCP server list.

One Dafny module corresponds to each source file:

| module | file |
|---|---|
| `StreamChat` | `core/llm/streamChat.ts` |
| `ToolContinuation` | `gui/src/redux/thunks/streamResponseAfterToolCall.ts` |
| `Tabs` | `gui/src/redux/slices/tabsSlice.ts` |
| `ChatPage` | `gui/src/pages/gui/Chat.tsx` |
| `SessionHistory` | `HistoryDropdown.tsx` and `HistorySidebar.tsx`, which share the same grouping and filtering code |
| `TitleEditors` | `ChatTabsSelector.tsx` and `SessionTitleEditor.tsx` |
| `ChatContainer` | `ChatContainer.tsx` |
| `TimeFormat` | `gui/src/util/time.ts` |
| `TabsBackup` | `gui/src/util/tabsBackup.ts` |
| `Toasts` | `gui/src/components/common/Toast.tsx` |
| `RagProvider` | `core/context/providers/RagContextProvider.ts` |
| `SettingsModal` | `ModernSettingsModal.tsx` |
| `McpSection` | `MCPSection.tsx` |

Shared modules hold:
- the JavaScript string operations the code relies on (`Strings`: `trim`, `toLowerCase`, `includes`, `parseInt`, `toString(36)`);
- an order-preserving `Filter` (`Lists`);
- `Option`/`Result` (`Wrappers`);
- the chat message types (`ChatTypes`);
- keyboard keys (`UiKeys`).

What the source computes in place is modelled as such:
- React state and singletons become classes whose methods update their fields.
- Loops become methods with invariants, proved against specification functions.
- Reducers, updaters and formatters become functions.

Everything the code cannot see in advance is a parameter of the operation that uses it:
- the clock, random ids;
- the LLM and slash-command producers and the point at which an abort is observed;
- the retrieval result, HTTP and IPC answers;
- storage writes, confirmation answers and handler presence.

Side effects the code starts are recorded as sequences of requests, so a contract can state their order:
- Redux dispatches;
- telemetry;
- IDE requests and toasts;
- `onSave` calls.

## Model

| member | source | states |
|---|---|---|
| StreamChat.EnhanceOptions | core/llm/streamChat.ts:34-38 | the context option is always truthy; a truthy one is kept, a falsy or missing one becomes "continue.dev"; the model, the group name and all other options are preserved |
| StreamChat.EnhanceOptionsIdempotent | core/llm/streamChat.ts:34-38 | filling in the default context twice is the same as once |
| StreamChat.ErrorPromptLog | core/llm/streamChat.ts:141-150 | the abort log has empty prompt and completion; it carries the model title (or the model name) and the provider (or "unknown"); its options are the turn's options with the model set |
| StreamChat.LastUserIndex | core/llm/streamChat.ts:89 | the index found holds a user message and no later message is a user message; None exactly when there is no user message |
| StreamChat.TextParts | core/llm/streamChat.ts:91-97 | the texts of exactly the text parts, in the parts' order (`map` of `filter`) |
| StreamChat.ContextBlocks | core/llm/streamChat.ts:118-121 | one rendered block per retrieved item, in the items' order |
| StreamChat.RagMessageHoldsItems | core/llm/streamChat.ts:118-126 | the synthesized system message contains the name and the content of every retrieved item |
| StreamChat.AugmentMessages | core/llm/streamChat.ts:78-138 | when retrieval yields nothing, the conversation is unchanged; otherwise exactly one system message is added, immediately before the last message, and every original message keeps its place and order |
| StreamChat.RetrievalFailureKeepsMessages | core/llm/streamChat.ts:128-137 | no group, no user message, a failing retrieval or an empty result leaves the conversation unchanged |
| StreamChat.AugmentOnlyInserts | core/llm/streamChat.ts:128-132 | removing the inserted message gives back the original conversation |
| StreamChat.RagMessageBeforeLastUser | core/llm/streamChat.ts:128-132 | when the conversation ends with the user's question, the system message sits right before it and that question is still the last user message |
| StreamChat.StopIndex | core/llm/streamChat.ts:229-240 | the number of forwarded chunks is at most the number produced; it is fewer exactly when an abort is observed before the end, and then it is the index of that abort |
| StreamChat.DriveModel | core/llm/streamChat.ts:229-240 | the yielded chunks are exactly the producer's chunks up to the abort point; the ending is the producer's answer to `return(errorLog)` on abort, and its own ending otherwise |
| StreamChat.AbortBeforeFirstChunk | core/llm/streamChat.ts:229-233 | an abort seen before the first chunk yields nothing and returns the producer's answer to `return(errorLog)` |
| StreamChat.AssistantReplies | core/llm/streamChat.ts:209-214 | only non-empty outputs are forwarded, each as an assistant text message without a tool-call id |
| StreamChat.AssistantRepliesAppend | core/llm/streamChat.ts:209-214 | one more output adds exactly one message when it is non-empty and none otherwise |
| StreamChat.DriveSlashCommand | core/llm/streamChat.ts:203-216 | the forwarded messages are the assistant replies of the outputs up to the abort point; the ending is as for the model loop |
| StreamChat.FindSlashCommand | core/llm/streamChat.ts:156-158 | the command found is the first configured one with that name; None means no configured command has that name |
| StreamChat.LlmStreamChat | core/llm/streamChat.ts:10-283 | no config throws "Config not loaded" before anything happens; no chat model throws "No chat model selected" with nothing yielded; on the model path the yielded chunks are a prefix of the model's, on the augmented conversation and enhanced options; an unknown slash command and a command without `run` throw their messages; otherwise the slash path forwards only non-empty outputs; premature-close telemetry fires exactly for a caught error whose message says so, and that error is rethrown unchanged; the free-trial check runs exactly when the model path completes |
| StreamChat.FreeTrialExceeded | core/llm/streamChat.ts:285-309 | the signal is sent only when the configuration may use the free trial, the status was fetched, and the chat count exceeds the limit; conversely, a non-zero count above the limit always sends it |
| ToolContinuation.CompletedToolCalls | gui/src/redux/thunks/streamResponseAfterToolCall.ts:27-29 | the kept tool calls are finished ("done" or "errored"); every finished call is kept, as often as it occurs, and the list's order is kept |
| ToolContinuation.CompletedCountIffAll | gui/src/redux/thunks/streamResponseAfterToolCall.ts:27-31 | the count of finished calls equals the count of calls iff every call is finished |
| ToolContinuation.AllToolsDoneMeansFinished | gui/src/redux/thunks/streamResponseAfterToolCall.ts:18-32 | readiness holds iff the message or its tool call states are missing, or every tool call is finished |
| ToolContinuation.ExternalIffCustomBaseAndNotBuiltIn | gui/src/redux/thunks/streamResponseAfterToolCall.ts:39-69 | the external-backend test is false without a model, and otherwise holds iff an API base is set and the provider is not one of the built-in ones; the external list never matters |
| ToolContinuation.FindToolCallById | gui/src/redux/thunks/streamResponseAfterToolCall.ts:120-127 | a state found has that id; it is the first such state of the first history item holding one; None means no item holds a call with that id |
| ToolContinuation.FindAssistantMessage | gui/src/redux/thunks/streamResponseAfterToolCall.ts:143-148 | the message found is the first assistant message of the history that owns a tool call with that id; None means no message does |
| ToolContinuation.ToolMessage | gui/src/redux/thunks/streamResponseAfterToolCall.ts:135-140 | the message appended is a tool-role message carrying the tool call's id |
| ToolContinuation.ThunkApi.SendToolResultToBackend | gui/src/redux/thunks/streamResponseAfterToolCall.ts:75-107 | the relay throws exactly when it fails; otherwise it dispatches one further tool message with the same id and output |
| ToolContinuation.AsWrittenRun | gui/src/redux/thunks/streamResponseAfterToolCall.ts:109-189 | an unknown id dispatches nothing; a known id first resets the code-block index and then appends the tool message with the output (defaulting to empty); a run that fails has dispatched a resume |
| ToolContinuation.ThunkApi.StreamResponseAfterToolCall | gui/src/redux/thunks/streamResponseAfterToolCall.ts:109-189 | the thunk's dispatches and its error are those of the as-written run on the store's history and model; the store is otherwise unchanged |
| ToolContinuation.ThunkApi.Resume | gui/src/redux/thunks/streamResponseAfterToolCall.ts:153-184 | internal backend or failed relay: one resume; relayed: the repeated tool message, then one resume, or two when the first is rejected; the error is that of the last resume |
| ToolContinuation.AsWrittenCounts | gui/src/redux/thunks/streamResponseAfterToolCall.ts:129-185 | a known id dispatches one tool message, or two when the external relay succeeds; a resume happens iff the owning message is ready, once, or twice when the relayed path's first resume is rejected |
| ToolContinuation.AsWrittenAgreesOnInternalPath | gui/src/redux/thunks/streamResponseAfterToolCall.ts:150-185 | without an external backend, or when the relay fails, the code as written and the intended behaviour dispatch the same actions and end the same way |
| ToolContinuation.AsWrittenResumesTwice | gui/src/redux/thunks/streamResponseAfterToolCall.ts:165-180 | an external backend, a relay that succeeds and a rejected first resume dispatch `streamNormalInput` twice |
| ToolContinuation.AsWrittenDuplicatesToolMessage | gui/src/redux/thunks/streamResponseAfterToolCall.ts:83-97 | on the external path with a relay that succeeds, the same tool message is dispatched twice |
| ToolContinuation.IntendedRun | gui/src/redux/thunks/streamResponseAfterToolCall.ts:109-189 | an unknown id dispatches nothing |
| ToolContinuation.IntendedRunResumesOnce | gui/src/redux/thunks/streamResponseAfterToolCall.ts:150-185 | the corrected thunk dispatches exactly one tool message per known id and exactly one resume iff the owning message is ready; it fails only with that resume's rejection |
| Tabs.InitialTabs | gui/src/redux/slices/tabsSlice.ts:15-24 | the initial list is one active tab titled "Chat 1" without a session, and it is well formed |
| Tabs.FindActive | gui/src/redux/slices/tabsSlice.ts:74 | the index found is the first active tab; None means no tab is active |
| Tabs.FindSessionTab | gui/src/redux/slices/tabsSlice.ts:88-90 | the index found is the first tab holding the session; None means no tab holds it |
| Tabs.SetTabs | gui/src/redux/slices/tabsSlice.ts:30-32 | the payload replaces the list |
| Tabs.Merge | gui/src/redux/slices/tabsSlice.ts:39 | each field present in the update overrides the tab's, each absent one keeps the tab's value; an update with no fields leaves the tab as it was |
| Tabs.UpdateTab | gui/src/redux/slices/tabsSlice.ts:33-41 | the length is kept; tabs with another id are unchanged; tabs with the id get the update merged in |
| Tabs.UpdateTabIdempotent | gui/src/redux/slices/tabsSlice.ts:33-41 | applying an update that keeps the id twice is the same as once |
| Tabs.UpdateTitleKeepsWellFormed | gui/src/redux/slices/tabsSlice.ts:33-41 | a title-only update keeps ids distinct and at most one tab active |
| Tabs.AddTab | gui/src/redux/slices/tabsSlice.ts:42-53 | the new tab goes last, with a missing or zero timestamp replaced by now; an active new tab deactivates every earlier tab, and an inactive one changes no activity |
| Tabs.AddActiveTabIsSoleActive | gui/src/redux/slices/tabsSlice.ts:42-53 | adding an active tab under a new id leaves a well-formed list in which it is the only active tab |
| Tabs.RemoveTab | gui/src/redux/slices/tabsSlice.ts:54-56 | exactly the tabs with that id go, and the rest keep their order |
| Tabs.RemoveTabIdempotent | gui/src/redux/slices/tabsSlice.ts:54-56 | removing the same id twice is the same as once |
| Tabs.SetActiveTab | gui/src/redux/slices/tabsSlice.ts:57-62 | the length is kept, and a tab is active iff its id is the argument; nothing else changes |
| Tabs.SetActiveTabSelects | gui/src/redux/slices/tabsSlice.ts:57-62 | with distinct ids the result is well formed; a present id leaves an active tab, and an absent id leaves none |
| Tabs.KeepAssigned | gui/src/redux/slices/tabsSlice.ts:93-96 | the kept tabs are an order-preserving sub-list holding exactly the tabs with a session and the tab to keep |
| Tabs.ActivateExisting | gui/src/redux/slices/tabsSlice.ts:97-104 | the existing tab becomes the active one and the session's tabs take the title |
| Tabs.HandleSessionChange | gui/src/redux/slices/tabsSlice.ts:63-134 | no active tab: no change; the active tab holds the session: only its title changes; another tab holds it: unassigned tabs other than that one are dropped and that one becomes active with the title; an unassigned active tab adopts the session; otherwise a new active tab for the session is appended and all others deactivated |
| Tabs.SessionChangeActivatesSession | gui/src/redux/slices/tabsSlice.ts:63-134 | whenever a tab was active, afterwards an active tab holds the session and carries its title |
| Tabs.FilterKeepsWellFormed | gui/src/redux/slices/tabsSlice.ts:54-56 | dropping tabs keeps ids distinct and at most one tab active |
| Tabs.SessionChangeKeepsWellFormed | gui/src/redux/slices/tabsSlice.ts:63-134 | with a new tab id not already in use, a well-formed list stays well formed |
| ChatPage.FindLatestSummaryIndex | gui/src/pages/gui/Chat.tsx:54-61 | the result is the largest index whose entry has a summary, or -1 exactly when none has one |
| ChatPage.IsLastUserInput | gui/src/pages/gui/Chat.tsx:380-387 | true iff no user message comes after the index |
| ChatPage.NoUserMeansNone | gui/src/pages/gui/Chat.tsx:380-387 | the recursive "some user message" test agrees with its existential reading |
| ChatPage.LastEntryIsLastUserInput | gui/src/pages/gui/Chat.tsx:380-387 | the last entry of a history is always the last user input |
| ChatPage.FindChatTab | gui/src/pages/gui/Chat.tsx:182 | the index found is the first tab with that id; None means no tab has it |
| ChatPage.CreateTabUpdate | gui/src/pages/gui/Chat.tsx:180-227 | a session without a tab gets one new active tab "Chat n+1" at the end, and every other tab is deactivated; with a tab, the list comes back unchanged exactly when the session's first tab is active and no other session's tab is, and otherwise a tab is active iff it is the session's |
| ChatPage.CreateTabActivatesSession | gui/src/pages/gui/Chat.tsx:180-227 | afterwards the session's tab exists and is active, and no other tab is active |
| ChatPage.CreateTabIdempotent | gui/src/pages/gui/Chat.tsx:210-226 | running the updater again returns the list unchanged |
| ChatPage.TitleUpdate | gui/src/pages/gui/Chat.tsx:239-266 | only tabs with the session's id may change, and only their title; a missing tab or an equal title returns the list unchanged; afterwards the session's tab has the title |
| ChatPage.TitleUpdateIdempotent | gui/src/pages/gui/Chat.tsx:239-266 | applying the title updater twice is the same as once |
| ChatPage.WithoutTab | gui/src/pages/gui/Chat.tsx:520-547 | exactly the tabs with that id go, and the rest keep their order |
| ChatPage.IsBeforeLatestSummary | gui/src/pages/gui/Chat.tsx:400-402 | the dimming test on the latest summary's index; dimming needs an index above 0 |
| ChatPage.DimmedIffSummaryLater | gui/src/pages/gui/Chat.tsx:399-401 | with the index `findLatestSummaryIndex` answers, an entry is dimmed iff some later entry of the history carries a summary |
| ChatPage.ChatPageState.OnHistoryOrSessionChange | gui/src/pages/gui/Chat.tsx:171-229 | the tab-creation updater runs only when the history is non-empty and a session is set |
| ChatPage.ChatPageState.OnTitleOrSessionChange | gui/src/pages/gui/Chat.tsx:232-268 | the title updater runs only when both title and session are set |
| ChatPage.ChatPageState.HandleTabSelect | gui/src/pages/gui/Chat.tsx:514-518 | selecting another session than the current one loads it and saves the current one; selecting the current one dispatches nothing; the tabs, the history panel, the session id, title, history and workspace folder stay |
| ChatPage.ChatPageState.HandleTabClose | gui/src/pages/gui/Chat.tsx:520-534 | the tab goes; closing the current session with tabs left loads the first remaining one; with no tab left a new session starts; otherwise nothing is dispatched; the session id, title, history and workspace folder stay |
| ChatPage.ChatPageState.HandleSessionDelete | gui/src/pages/gui/Chat.tsx:537-547 | the session is deleted and its tab removed; the session id, title, history and workspace folder stay |
| ChatPage.ChatPageState.HandleTitleChange | gui/src/pages/gui/Chat.tsx:549-559 | only a non-empty title different from the current one is saved, sent with the workspace folder and the page's current history; the session id, title, history and workspace folder stay |
| ChatPage.ChatPageState.HandleSessionEdit | gui/src/pages/gui/Chat.tsx:561-572 | only an edit of the current session saves its title, with the workspace folder and history; the session id, title, history and workspace folder stay |
| ChatPage.ChatPageState.HandleTabTitleEdit | gui/src/pages/gui/Chat.tsx:574-588 | only that tab's title changes, and the title is saved, with the workspace folder and history, when the tab is the current session's; the session id, title, history and workspace folder stay |
| ChatPage.ChatPageState.HandleSessionSelect | gui/src/pages/gui/Chat.tsx:590-598 | the history closes; a session other than the current one is loaded, the current one is not reloaded; the tabs and the session id, title, history and workspace folder stay |
| ChatPage.ChatPageState.HandleToggleHistory | gui/src/pages/gui/Chat.tsx:505-511 | opening the history refreshes the session list first; closing dispatches nothing; the session id, title, history and workspace folder stay |
| ChatPage.ChatPageState.SendInput | gui/src/pages/gui/Chat.tsx:273-354 | pending tool calls are cancelled and open apply states rejected, in order; then nothing more without a model or in edit mode without code to edit, otherwise the edit or the chat response starts and the editor is cleared when there is one; the session id, title, history and workspace folder stay |
| ChatPage.CancelsOf | gui/src/pages/gui/Chat.tsx:281-287 | one cancellation per pending tool call, in order |
| ChatPage.CancelAll | gui/src/pages/gui/Chat.tsx:281-287 | the loop dispatches exactly one cancellation per pending tool call, in order |
| ChatPage.RejectAllOpen | gui/src/pages/gui/Chat.tsx:290-294 | the loop rejects exactly the open apply states, in order |
| ChatPage.RejectOpen | gui/src/pages/gui/Chat.tsx:290-294 | no more rejections than apply states |
| ChatPage.RejectOpenExactly | gui/src/pages/gui/Chat.tsx:290-294 | every rejection names an open stream, and every open stream is rejected |
| ChatPage.StreamAfterCleanup | gui/src/pages/gui/Chat.tsx:295-343 | no model: nothing; edit mode: an edit stream only when there is code to edit; otherwise the chat response first, and a clear of the editor iff there is one |
| SessionHistory.ParseTimestamp | gui/src/components/chat/HistoryDropdown.tsx:268-275 | numbers are returned unchanged; strings are parsed, and an unparseable one becomes now |
| SessionHistory.ParseTimestampOfDigits | gui/src/components/chat/HistoryDropdown.tsx:268-275 | a timestamp written in decimal parses back to itself |
| SessionHistory.BucketOf | gui/src/components/chat/HistoryDropdown.tsx:290-303 | Today iff the day start is today's; Yesterday iff it is the day before; LastWeek only at most a week old; Older only when older or undated |
| SessionHistory.BucketMembersBelong | gui/src/components/chat/HistoryDropdown.tsx:290-303 | every member of a bucket is a session that falls in that bucket |
| SessionHistory.BucketsPartition | gui/src/components/chat/HistorySidebar.tsx:225-238 | the four buckets' sizes add up to the number of sessions: each session falls in exactly one bucket |
| SessionHistory.Insert | gui/src/components/chat/HistoryDropdown.tsx:310 | inserting adds exactly that session to the multiset |
| SessionHistory.InsertKeepsTies | gui/src/components/chat/HistoryDropdown.tsx:310 | the inserted session lands ahead of every session with its own key, and those keep their order |
| SessionHistory.InsertNewestFirst | gui/src/components/chat/HistoryDropdown.tsx:310 | inserting into a newest-first list keeps it newest first |
| SessionHistory.SortBy | gui/src/components/chat/HistoryDropdown.tsx:306-312 | the sorted bucket is a permutation of the bucket |
| SessionHistory.SortKeepsTies | gui/src/components/chat/HistoryDropdown.tsx:310 | the sort is stable: sessions with the same date, or all without one, keep their input order |
| SessionHistory.SortOfTiesIsIdentity | gui/src/components/chat/HistorySidebar.tsx:245 | a bucket whose sessions share one date, or where none has a date, comes out as it went in |
| SessionHistory.SortIsNewestFirst | gui/src/components/chat/HistorySidebar.tsx:241-247 | when every session has a date, the sorted bucket is newest first |
| SessionHistory.PushIntoBuckets | gui/src/components/chat/HistoryDropdown.tsx:290-303 | the loop puts each session, in order, into the bucket its date selects |
| SessionHistory.GroupIfAny | gui/src/components/chat/HistoryDropdown.tsx:306-312 | an empty bucket yields no group; a non-empty one yields one group holding its members sorted |
| SessionHistory.GroupsBelowShape | gui/src/components/chat/HistoryDropdown.tsx:306-312 | the groups come in bucket order, each holds only its bucket's sessions, and a bucket has a group iff it is non-empty |
| SessionHistory.CoversEveryBucket | gui/src/components/chat/HistoryDropdown.tsx:306-312 | a bucket has a group iff it has a member |
| SessionHistory.DateGroupsShape | gui/src/components/chat/HistorySidebar.tsx:212-250 | the grouping is ordered, each group holds its own bucket's sessions, and exactly the non-empty buckets appear |
| SessionHistory.GroupsBelowCount | gui/src/components/chat/HistoryDropdown.tsx:277-315 | the groups of the first buckets hold as many sessions as those buckets |
| SessionHistory.DateGroupsKeepEverySession | gui/src/components/chat/HistoryDropdown.tsx:277-315 | the groups together hold as many sessions as were given: none is lost or duplicated |
| SessionHistory.DropOrSort | gui/src/components/chat/HistoryDropdown.tsx:306-312 | an empty bucket is dropped, and a non-empty one is appended sorted |
| SessionHistory.GroupByKey | gui/src/components/chat/HistoryDropdown.tsx:277-315 | the loop's groups are the date grouping |
| SessionHistory.GroupSessionsByDate | gui/src/components/chat/HistoryDropdown.tsx:277-315 | `groupSessionsByDate` computes the date grouping on creation dates |
| SessionHistory.MatchesIffSubsequence | gui/src/components/chat/HistoryDropdown.tsx:402-421 | a session matches iff the query is a subsequence of its lower-cased title, so the substring test adds nothing |
| SessionHistory.FuzzyMatch | gui/src/components/chat/HistoryDropdown.tsx:410-421 | the walk accepts iff the query is a subsequence of the title |
| SessionHistory.SessionMatches | gui/src/components/chat/HistoryDropdown.tsx:404-421 | the per-session test is the match predicate |
| SessionHistory.FilterByQuery | gui/src/components/chat/HistoryDropdown.tsx:403-422 | the loop keeps exactly the matching sessions, in order |
| SessionHistory.FilterSessions | gui/src/components/chat/HistoryDropdown.tsx:399-423 | a blank query returns the sessions unchanged; otherwise the sessions matching the lower-cased, trimmed query are kept in order |
| SessionHistory.FilteredSessionsMatch | gui/src/components/chat/HistorySidebar.tsx:291-315 | the result is an order-preserving sub-list holding exactly the sessions whose lower-cased title has the query as a subsequence |
| SessionHistory.HistoryDropdown.HandleEditClick | gui/src/components/chat/HistoryDropdown.tsx:370-374 | editing starts on that session with its current title |
| SessionHistory.HistoryDropdown.SetEditingTitle | gui/src/components/chat/HistoryDropdown.tsx:493 | typing changes only the edited text |
| SessionHistory.HistoryDropdown.HandleSaveEdit | gui/src/components/chat/HistoryDropdown.tsx:376-383 | a non-blank title is reported trimmed, and editing always ends |
| SessionHistory.HistoryDropdown.HandleCancelEdit | gui/src/components/chat/HistoryDropdown.tsx:385-388 | editing ends and nothing is reported |
| SessionHistory.HistoryDropdown.HandleEditKeyDown | gui/src/components/chat/HistoryDropdown.tsx:390-396 | Enter saves, Escape cancels, any other key changes nothing |
| SessionHistory.HistoryDropdown.HandleDocumentKeyDown | gui/src/components/chat/HistoryDropdown.tsx:431-440 | Escape while the dropdown is open asks to close it once; any other key, or a closed dropdown, asks nothing; nothing else changes |
| SessionHistory.HistoryDropdown.EditBoxKeyDown | gui/src/components/chat/HistoryDropdown.tsx:431-440 | a key in the edit box reaches both handlers: Escape cancels the edit and closes the dropdown, Enter saves a non-blank title without closing, any other key changes nothing |
| SessionHistory.HistoryDropdown.OnSessionClick | gui/src/components/chat/HistoryDropdown.tsx:480-485 | clicking the session being edited neither selects nor closes; any other is selected and the dropdown closes |
| SessionHistory.HistoryDropdown.HandleDeleteClick | gui/src/components/chat/HistoryDropdown.tsx:360-367 | the dropdown reports a deletion at once |
| SessionHistory.SidebarDeleteClick | gui/src/components/chat/HistorySidebar.tsx:281-288 | the sidebar reports a deletion only once it is confirmed |
| TitleEditors.EditedTitle | gui/src/components/chat/ChatTabsSelector.tsx:290-297 | a title is reported iff the trimmed text is non-empty and differs from the current title; what is reported is that trimmed text |
| TitleEditors.EditedTitleIgnoresOuterWhitespace | gui/src/components/chat/SessionTitleEditor.tsx:115-122 | outer whitespace of the typed text never changes what a save reports |
| TitleEditors.EditedTitleSettles | gui/src/components/chat/SessionTitleEditor.tsx:115-122 | once a reported title is the current one, saving the same text reports nothing |
| TitleEditors.TabTitle | gui/src/components/chat/ChatTabsSelector.tsx:292 | the title found is that of the first tab with that id; None iff there is none |
| TitleEditors.DisplayTitle | gui/src/components/chat/ChatTabsSelector.tsx:389 | a non-empty title is shown as it is, and an empty one as "New Chat" |
| TitleEditors.FadeOf | gui/src/components/chat/ChatTabsSelector.tsx:304-313 | the left fade shows iff the strip is scrolled, the right one iff content lies past the viewport |
| TitleEditors.OverflowShowsAFade | gui/src/components/chat/ChatTabsSelector.tsx:304-313 | a strip wider than its viewport always shows a fade |
| TitleEditors.FittingStripShowsNoFade | gui/src/components/chat/ChatTabsSelector.tsx:304-313 | a strip that fits, at its start, shows none |
| TitleEditors.ChatTabsSelector.HandleTabHover | gui/src/components/chat/ChatTabsSelector.tsx:231-245 | the tab becomes hovered and a timer for it replaces any pending one |
| TitleEditors.ChatTabsSelector.HoverTimerFires | gui/src/components/chat/ChatTabsSelector.tsx:240-242 | the pending timer shows the close button of the tab it was started for, once: afterwards nothing is pending |
| TitleEditors.ChatTabsSelector.HandleTabLeave | gui/src/components/chat/ChatTabsSelector.tsx:247-255 | leaving clears the hover, hides the close button and cancels the timer |
| TitleEditors.ChatTabsSelector.HandleTabClick | gui/src/components/chat/ChatTabsSelector.tsx:257-260 | the tab is selected |
| TitleEditors.ChatTabsSelector.HandleCloseClick | gui/src/components/chat/ChatTabsSelector.tsx:262-266 | the tab is closed and the close button hidden |
| TitleEditors.ChatTabsSelector.HandleTitleDoubleClick | gui/src/components/chat/ChatTabsSelector.tsx:268-272 | editing starts on that tab with its current title |
| TitleEditors.ChatTabsSelector.HandleTitleInputChange | gui/src/components/chat/ChatTabsSelector.tsx:274-276 | typing changes only the edited text |
| TitleEditors.ChatTabsSelector.SaveTitle | gui/src/components/chat/ChatTabsSelector.tsx:290-297 | a new, non-blank trimmed title is reported when a handler exists; editing always ends |
| TitleEditors.ChatTabsSelector.CancelEdit | gui/src/components/chat/ChatTabsSelector.tsx:299-302 | editing ends and nothing is reported |
| TitleEditors.ChatTabsSelector.HandleTitleInputKeyDown | gui/src/components/chat/ChatTabsSelector.tsx:278-284 | Enter saves, Escape cancels, any other key changes nothing |
| TitleEditors.ChatTabsSelector.HandleTitleInputBlur | gui/src/components/chat/ChatTabsSelector.tsx:286-288 | leaving the box saves |
| TitleEditors.ChatTabsSelector.CheckScrollOverflow | gui/src/components/chat/ChatTabsSelector.tsx:304-313 | the fades are recomputed from the strip, or kept while it is not mounted |
| TitleEditors.SessionTitleEditor.HandleTitleClick | gui/src/components/chat/SessionTitleEditor.tsx:94-97 | editing starts from the current title |
| TitleEditors.SessionTitleEditor.HandleInputChange | gui/src/components/chat/SessionTitleEditor.tsx:99-101 | typing changes only the edited text |
| TitleEditors.SessionTitleEditor.SaveTitle | gui/src/components/chat/SessionTitleEditor.tsx:115-122 | a new, non-blank trimmed title is reported; editing ends with empty text |
| TitleEditors.SessionTitleEditor.CancelEdit | gui/src/components/chat/SessionTitleEditor.tsx:124-127 | editing ends and nothing is reported |
| TitleEditors.SessionTitleEditor.HandleInputKeyDown | gui/src/components/chat/SessionTitleEditor.tsx:103-109 | Enter saves, Escape cancels, any other key changes nothing |
| TitleEditors.SessionTitleEditor.HandleInputBlur | gui/src/components/chat/SessionTitleEditor.tsx:111-113 | leaving the box saves |
| TitleEditors.UntouchedEdit | gui/src/components/chat/SessionTitleEditor.tsx:94-122 | opening and saving without typing reports something only when the title has outer whitespace, and then its trimmed form |
| ChatContainer.FindTab | gui/src/components/chat/ChatContainer.tsx:96 | the index found is the first tab with that id; None means no tab has it |
| ChatContainer.ActiveTab | gui/src/components/chat/ChatContainer.tsx:139 | there is an active tab iff some tab is active; it is the first active tab of the list, and with at most one active tab it is that tab |
| ChatContainer.RestoredActivation | gui/src/components/chat/ChatContainer.tsx:57-63 | a restored list with an active tab is unchanged; otherwise only the first tab changes, and a non-empty list ends with an active tab |
| ChatContainer.RestoredActivationKeepsWellFormed | gui/src/components/chat/ChatContainer.tsx:57-63 | the fix-up keeps a well-formed list well formed |
| ChatContainer.ActivateFirstIfNone | gui/src/components/chat/ChatContainer.tsx:57-63 | the backed-up array is fixed up in place |
| ChatContainer.RestoreOnMount | gui/src/components/chat/ChatContainer.tsx:56-69 | a loaded backup is fixed up; no backup changes nothing |
| ChatContainer.CloseTab | gui/src/components/chat/ChatContainer.tsx:95-106 | the tab goes and every other tab stays; closing an absent or inactive tab is just a removal; closing the active tab with tabs left activates the first remaining one |
| ChatContainer.CloseTabKeepsWellFormed | gui/src/components/chat/ChatContainer.tsx:95-106 | closing keeps the list well formed |
| ChatContainer.CloseTabKeepsAnActiveTab | gui/src/components/chat/ChatContainer.tsx:95-106 | a list with an active tab keeps one after a close, unless it becomes empty |
| ChatContainer.NewChatId | gui/src/components/chat/ChatContainer.tsx:110 | the id ends with the random digits, and what precedes them reads back in base 36 as the time |
| ChatContainer.NewChat | gui/src/components/chat/ChatContainer.tsx:109-119 | one active tab titled "새 채팅" without a session is appended with that id and time; every earlier tab is kept as it was except that it is deactivated |
| ChatContainer.NewChatIsSoleActive | gui/src/components/chat/ChatContainer.tsx:109-119 | with a fresh id the new chat is the only active tab of a well-formed list |
| ChatContainer.RetitleTab | gui/src/components/chat/ChatContainer.tsx:132-137 | only that tab's title changes |
| ChatContainer.ChatContainerState.OnTabsChanged | gui/src/components/chat/ChatContainer.tsx:72-76 | a change of tabs backs up the list at once, only when it is non-empty |
| ChatContainer.ChatContainerState.HandleTabSelect | gui/src/components/chat/ChatContainer.tsx:90-92 | the selected tab becomes the active one |
| ChatContainer.ChatContainerState.HandleTabClose | gui/src/components/chat/ChatContainer.tsx:95-106 | the tabs become the close of the old tabs |
| ChatContainer.ChatContainerState.HandleNewChat | gui/src/components/chat/ChatContainer.tsx:109-119 | the tabs become the old tabs with a new chat added |
| ChatContainer.ChatContainerState.HandleToggleHistory | gui/src/components/chat/ChatContainer.tsx:122-129 | the history panel flips and nothing else changes |
| ChatContainer.ChatContainerState.HandleTabTitleEdit | gui/src/components/chat/ChatContainer.tsx:132-137 | the tab is retitled |
| TimeFormat.FormatTimeAgoFromTimestamp | gui/src/util/time.ts:29-52 | exactly one of five answers by elapsed time (under a minute, including the future; minutes; hours; days; a week or more), and each count is the floored number of whole units elapsed |
| TimeFormat.FormatTimeAgo | gui/src/util/time.ts:1-24 | a parseable string is bucketed like its number; an unparseable one falls through to the date |
| TimeFormat.FormatTimeAgoOfDecimal | gui/src/util/time.ts:1-24 | a timestamp written in decimal is labelled like the number itself |
| TimeFormat.Recency | gui/src/util/time.ts:29-52 | the five answers rank from 0 to 4 |
| TimeFormat.FormatTimeAgoMonotone | gui/src/util/time.ts:29-52 | as time passes a label never moves to a more recent bucket, and within one its count never drops |
| TimeFormat.Label | gui/src/util/time.ts:36-47 | each answer but the date has its Korean text with its count |
| TimeFormat.TimeUpdateManager.StartTimer | gui/src/util/time.ts:128-134 | a running timer is kept; otherwise one starts with the current interval |
| TimeFormat.TimeUpdateManager.StopTimer | gui/src/util/time.ts:139-144 | the timer is cleared |
| TimeFormat.TimeUpdateManager.Subscribe | gui/src/util/time.ts:100-103 | the callback is added once and the timer runs, a running one being kept |
| TimeFormat.TimeUpdateManager.Unsubscribe | gui/src/util/time.ts:104-109 | the subscribers become `Without` of the old ones (exactly that callback goes, the rest in order), and the timer keeps running while someone is subscribed |
| TimeFormat.TimeUpdateManager.NotifyCallbacks | gui/src/util/time.ts:115-123 | every callback is called in order, and one warning is logged per callback that throws |
| TimeFormat.TimeUpdateManager.SetUpdateInterval | gui/src/util/time.ts:157-163 | the interval is stored; a running timer restarts with it, and a stopped one stays stopped |
| TimeFormat.Without | gui/src/util/time.ts:105 | `Set.delete`: exactly that element goes and the rest keep their insertion order (the filter without it) |
| TimeFormat.WithoutKeepsDistinct | gui/src/util/time.ts:105 | deleting keeps subscribers distinct |
| TimeFormat.SubscribeThenUnsubscribe | gui/src/util/time.ts:100-110 | subscribing and unsubscribing a new callback restores the subscriber list exactly, order included, and whether the timer runs |
| TabsBackup.ToRaw | gui/src/util/tabsBackup.ts:25-37 | a written tab has every field present |
| TabsBackup.BackupOf | gui/src/util/tabsBackup.ts:25-37 | the backup holds every tab in order, the time, and version 1 |
| TabsBackup.NormalizeTab | gui/src/util/tabsBackup.ts:55-65 | missing or empty ids and titles and missing or zero timestamps take their defaults; activity is true only when stored as true; the session is kept |
| TabsBackup.NormalizeWrittenTab | gui/src/util/tabsBackup.ts:55-65 | a complete tab written and normalised comes back unchanged |
| TabsBackup.NormalizeIdempotent | gui/src/util/tabsBackup.ts:55-65 | normalising twice is normalising once |
| TabsBackup.NormalizeAll | gui/src/util/tabsBackup.ts:55-65 | each stored entry is normalised, in order |
| TabsBackup.LoadOf | gui/src/util/tabsBackup.ts:40-71 | no entry loads nothing; unreadable JSON is cleared; a backup older than a day is cleared; otherwise its normalised tabs are returned in order |
| TabsBackup.SaveLoadRoundTrip | gui/src/util/tabsBackup.ts:25-71 | complete tabs saved at most a day ago load back unchanged |
| TabsBackup.StaleBackupIsCleared | gui/src/util/tabsBackup.ts:48-52 | a backup saved more than a day ago never loads and is cleared |
| TabsBackup.TabsBackupManager.SaveTabsToLocalStorage | gui/src/util/tabsBackup.ts:25-37 | a successful write stores the backup and the time; a failed one changes nothing |
| TabsBackup.TabsBackupManager.LoadTabsFromLocalStorage | gui/src/util/tabsBackup.ts:40-71 | the result is the load of the stored entry, which is removed exactly when the load clears it |
| TabsBackup.TabsBackupManager.ClearBackup | gui/src/util/tabsBackup.ts:74-80 | the entry is removed |
| TabsBackup.TabsBackupManager.StartAutoBackup | gui/src/util/tabsBackup.ts:83-92 | the old interval is stopped, so exactly the new one is alive |
| TabsBackup.TabsBackupManager.AutoBackupTick | gui/src/util/tabsBackup.ts:86-90 | a tick saves the current tabs when there are any |
| TabsBackup.TabsBackupManager.StopAutoBackup | gui/src/util/tabsBackup.ts:95-100 | no interval is alive |
| TabsBackup.TabsBackupManager.ShouldBackup | gui/src/util/tabsBackup.ts:103-105 | true iff more than five seconds passed since the last save |
| TabsBackup.TabsBackupManager.ImmediateBackup | gui/src/util/tabsBackup.ts:108-112 | a non-empty list is saved at once; an empty one changes nothing |
| TabsBackup.SaveThenShouldBackup | gui/src/util/tabsBackup.ts:25-37 | right after a successful save, no backup is due for five seconds |
| Toasts.IndexOf | gui/src/components/common/Toast.tsx:179-193 | the position found holds that id; None means no toast has it |
| Toasts.MapSet | gui/src/components/common/Toast.tsx:179-188 | a new id goes last, and an existing id keeps its place with the new toast |
| Toasts.MapSetStores | gui/src/components/common/Toast.tsx:179-188 | the toast is stored, every other toast is kept, ids stay distinct, and the size grows only for a new id |
| Toasts.MapDelete | gui/src/components/common/Toast.tsx:190-193 | exactly the toast with that id goes; the rest keep their order |
| Toasts.DeleteUndoesNewSet | gui/src/components/common/Toast.tsx:179-193 | removing a toast just shown under a new id restores the store |
| Toasts.FilterKeepsDistinct | gui/src/components/common/Toast.tsx:190-193 | removal keeps ids distinct |
| Toasts.ToastManager.NotifyListeners | gui/src/components/common/Toast.tsx:216-218 | every listener is told, in order |
| Toasts.ToastManager.Show | gui/src/components/common/Toast.tsx:179-188 | the toast is stored under the fresh id, which is returned, and the listeners are told |
| Toasts.ToastManager.Remove | gui/src/components/common/Toast.tsx:190-193 | the toast leaves the store, ids stay distinct, and the listeners are told |
| Toasts.ToastManager.ShowSuccess | gui/src/components/common/Toast.tsx:195-197 | a success toast is shown |
| Toasts.ToastManager.ShowError | gui/src/components/common/Toast.tsx:199-201 | an error toast is shown |
| Toasts.ToastManager.ShowInfo | gui/src/components/common/Toast.tsx:203-205 | an info toast is shown |
| Toasts.ToastManager.GetToasts | gui/src/components/common/Toast.tsx:207-209 | the stored toasts in insertion order |
| Toasts.ToastManager.Subscribe | gui/src/components/common/Toast.tsx:211-214 | the listener is added once |
| Toasts.ToastManager.Unsubscribe | gui/src/components/common/Toast.tsx:213 | the listener is removed |
| Toasts.ToastRegistry.GetInstance | gui/src/components/common/Toast.tsx:172-177 | the first call creates an empty manager, and later calls return the same one |
| Toasts.GetInstanceTwice | gui/src/components/common/Toast.tsx:172-177 | two calls return the same manager |
| Toasts.ShowThenRemove | gui/src/components/common/Toast.tsx:179-193 | showing and removing a toast under a new id restores the store after two notifications |
| RagProvider.RetrievalOptionsOf | core/context/providers/RagContextProvider.ts:30-38 | each retrieval option defaults (15, 10, true) only when missing |
| RagProvider.GetContextItems | core/context/providers/RagContextProvider.ts:21-66 | no results give one placeholder; results are renamed "RAG: group (i)" and their descriptions prefixed, in order, keeping content and uri; a failure gives one error item |
| RagProvider.ContextItemsNeverEmpty | core/context/providers/RagContextProvider.ts:21-66 | at least one item always comes back, and every name starts with "RAG" |
| RagProvider.ResultNamesDistinct | core/context/providers/RagContextProvider.ts:51-55 | distinct results get distinct names |
| RagProvider.GroupsUrl | core/context/providers/RagContextProvider.ts:108-109 | the configured base is used unless missing or empty; the path is appended |
| RagProvider.FetchGroupNames | core/context/providers/RagContextProvider.ts:105-141 | success iff the response is ok and its body an array; a bad status and a non-array body give their messages |
| RagProvider.FallbackGroups | core/context/providers/RagContextProvider.ts:80-101 | configured groups are used when present, the ten defaults otherwise |
| RagProvider.LoadSubmenuItems | core/context/providers/RagContextProvider.ts:68-103 | one entry per fetched group, described as "<group>와 관련된 코드베이스 컨텍스트를 검색합니다"; on failure one per fallback group, its title marked "(기본값)" and its description ending with the note " (API 연결 실패로 기본값 사용)" |
| RagProvider.UnreachableServiceOffersDefaults | core/context/providers/RagContextProvider.ts:80-101 | with nothing configured, a failed fetch offers exactly the ten default groups, marked |
| RagProvider.SubmenuIdsAreGroups | core/context/providers/RagContextProvider.ts:68-103 | every submenu id is a fetched or a fallback group |
| SettingsModal.ValidateInput | gui/src/components/settings/ModernSettingsModal.tsx:551-559 | a blank token asks for one; a trimmed token shorter than ten is too short; "" iff the trimmed token has ten characters or more |
| SettingsModal.SavedTokenIsValid | gui/src/components/settings/ModernSettingsModal.tsx:574-576 | the trimmed token handed to `onSave` validates exactly like what was typed |
| SettingsModal.SaveMessage | gui/src/components/settings/ModernSettingsModal.tsx:577-593 | success iff `onSave` resolved to true; false and a throw give their error messages |
| SettingsModal.SettingsForm.constructor | gui/src/components/settings/ModernSettingsModal.tsx:513-522 | the form starts empty, hidden, idle, with no error and no message |
| SettingsModal.SettingsForm.OnOpen | gui/src/components/settings/ModernSettingsModal.tsx:525-534 | a non-empty stored token replaces the field and the message is cleared |
| SettingsModal.SettingsForm.HandleKeyDown | gui/src/components/settings/ModernSettingsModal.tsx:544-548 | Escape asks to close; other keys do nothing |
| SettingsModal.SettingsForm.TogglePasswordVisibility | gui/src/components/settings/ModernSettingsModal.tsx:599-601 | the visibility flips |
| SettingsModal.SettingsForm.HandleTokenChange | gui/src/components/settings/ModernSettingsModal.tsx:629-643 | the field takes the text, which is revalidated only after a save attempt that left an error; from any state where an error only follows a save attempt (every reachable one, including a reopen with a stale error), the shown error is afterwards that of the current token |
| SettingsModal.SettingsForm.HandleSave | gui/src/components/settings/ModernSettingsModal.tsx:561-597 | without a handler nothing happens; an invalid token shows its error and stops; a valid one is handed over trimmed, and success clears the error, shows the message and schedules the close, while failure shows an error; loading ends; in any state, a save with a handler leaves the error matching the current token |
| SettingsModal.SettingsForm.ShowSaveResult | gui/src/components/settings/ModernSettingsModal.tsx:577-593 | the message follows the outcome; only success clears the error and schedules the close |
| SettingsModal.TypeAfterFailedSave | gui/src/components/settings/ModernSettingsModal.tsx:633-642 | typing while an error from a save attempt is shown, current or stale, shows an error iff the new text is still invalid, and then the right one |
| McpSection.SetStatus | gui/src/components/mainInput/Lump/sections/mcp/MCPSection.tsx:40-55 | only the status of the servers with that id changes |
| McpSection.SetEntry | gui/src/components/mainInput/Lump/sections/mcp/MCPSection.tsx:96-113 | the servers with that id take the given switch and status; all others are unchanged |
| McpSection.ToggledStatus | gui/src/components/mainInput/Lump/sections/mcp/MCPSection.tsx:78-91 | enabling shows "connecting", disabling shows "disabled" |
| McpSection.Toggled | gui/src/components/mainInput/Lump/sections/mcp/MCPSection.tsx:78-91 | the optimistic update flips the switch of that server only |
| McpSection.Reverted | gui/src/components/mainInput/Lump/sections/mcp/MCPSection.tsx:96-113 | the revert touches that server only |
| McpSection.RevertRestores | gui/src/components/mainInput/Lump/sections/mcp/MCPSection.tsx:96-113 | reverting a server whose row is current restores the list |
| McpSection.RevertUndoesToggle | gui/src/components/mainInput/Lump/sections/mcp/MCPSection.tsx:78-113 | restoring the old switch and status after the optimistic update gives back the list |
| McpSection.Deleted | gui/src/components/mainInput/Lump/sections/mcp/MCPSection.tsx:143-150 | exactly the servers with that id go; the rest keep their order and their multiplicity |
| McpSection.DeleteAbsentIsNoOp | gui/src/components/mainInput/Lump/sections/mcp/MCPSection.tsx:143-150 | deleting an absent id changes nothing |
| McpSection.StatusColor | gui/src/components/mainInput/Lump/sections/mcp/MCPSection.tsx:338-352 | gray iff disabled; otherwise green, yellow, stone or red exactly by status |
| McpSection.TruncateError | gui/src/components/mainInput/Lump/sections/mcp/MCPSection.tsx:200-203 | errors up to 150 characters are shown whole; longer ones are cut to their first 150 followed by "..." |
| McpSection.TooltipDelay | gui/src/components/mainInput/Lump/sections/mcp/MCPSection.tsx:193 | the tooltip lingers 1500 ms iff some error is longer than 150 characters |
| McpSection.MergedBlocks | gui/src/components/mainInput/Lump/sections/mcp/MCPSection.tsx:365-373 | no servers give nothing; otherwise one block per server, paired by index |
| McpSection.McpServerList.OnAuthenticate | gui/src/components/mainInput/Lump/sections/mcp/MCPSection.tsx:57-60 | the server shows "authenticating" and authentication is requested |
| McpSection.McpServerList.OnRemoveAuth | gui/src/components/mainInput/Lump/sections/mcp/MCPSection.tsx:62-65 | the server shows "authenticating" and removal is requested |
| McpSection.McpServerList.OnRefresh | gui/src/components/mainInput/Lump/sections/mcp/MCPSection.tsx:67-72 | the server shows "connecting" and a reload is requested |
| McpSection.McpServerList.OnToggle | gui/src/components/mainInput/Lump/sections/mcp/MCPSection.tsx:74-114 | the toggle is requested; success keeps the optimistic list; failure reverts the server, restoring the list when its row was current |
| McpSection.McpServerList.OnDelete | gui/src/components/mainInput/Lump/sections/mcp/MCPSection.tsx:116-164 | without a source file only an error notice; any answer but "삭제" stops after the confirmation; a successful file deletion removes the server and notifies; a failed one shows the error and keeps the list |
| Strings.Trim | gui/src/components/settings/ModernSettingsModal.tsx:552-555 | the result is the text between leading and trailing whitespace; it is empty iff the text is all whitespace |
| Strings.TrimIdempotent | gui/src/components/chat/HistoryDropdown.tsx:402 | trimming twice is trimming once |
| Strings.ToLower | gui/src/components/chat/HistoryDropdown.tsx:402-404 | every ASCII capital becomes its lower-case letter, and everything else is kept |
| Strings.IncludesIsSubsequence | gui/src/components/chat/HistoryDropdown.tsx:407-421 | a substring is always a subsequence |
| Strings.IntToStringRoundTrip | gui/src/components/chat/HistoryDropdown.tsx:271 | a decimal rendering parses back to the integer |
| Strings.Base36RoundTrip | gui/src/util/tabsBackup.ts:57 | a base-36 rendering reads back to the number |

## Left out

- I/O is not modelled; every answer from the outside world is a parameter. This covers:
  - HTTP requests and IDE messaging;
  - Redux internals and `unwrapResult`;
  - telemetry, TTS and `localStorage`;
  - `console` logging.
- Timers are flags or handles. Their delays are not modelled: the 100 ms relay wait, the 1500 ms close of the settings dialog, the hover delay and the refresh period.
- Asynchrony and interleaving are not modelled. Handlers run to completion in the order given.
- `McpSection.McpServerList.OnToggle` reverts from the list captured when the handler started, as the code does. When another change landed in between, that change is overwritten.
- Strings are sequences of characters:
  - `toLowerCase` is modelled for ASCII letters only;
  - the whitespace set of `trim` is the ECMAScript one;
  - lengths count characters, not UTF-16 code units.
- `parseInt` is modelled on integers; floating-point precision and `NaN` arithmetic are not. `NaN` is `None`.
- Dates are not modelled:
  - calendar days are a parameter (`dayStart`), so local time zones and daylight saving are not modelled;
  - `toLocaleDateString`, `formatDateTime` and `formatDateTimeFromTimestamp` produce locale text and are reduced to "a date".
- SortBy: the newest-first lemma covers buckets where every session has a parseable date. A bucket mixing dated and undated sessions gets an inconsistent comparator (`NaN` counts as equal), and JavaScript's `sort` leaves that order to the engine. Stability (`SortKeepsTies`) is proved for every bucket, and a bucket with no dates keeps its input order (`SortOfTiesIsIdentity`).
- `getInstance` of `TimeUpdateManager` and `TabsBackupManager` follows the same singleton pattern as `Toasts.ToastRegistry.GetInstance`. It is modelled only there.
- The toast component's own dismiss timers (gui/src/components/common/Toast.tsx:123-136) are rendering concerns and are left out.
- The container only logs the tabs restored from backup and does not dispatch them. The model applies the fix-up and stops there, as the code does.
- OnOpen: keeps a validation error left from before the dialog was closed, since the dialog renders nothing while closed but keeps its state. After a reopen the shown error can belong to the old token; `OnOpen` promises only that an error still follows a save attempt, and the next keystroke or save makes the error current again.
- RAG placement:
  - The written description of the system says the retrieved-context message goes before the most recent user message.
  - The code inserts it before the last message of the conversation, whatever its role.
  - The model follows the code. `StreamChat.RagMessageBeforeLastUser` shows that the two agree when the conversation ends with the user's message.
- `StreamChat.LlmStreamChat` covers several calls as parameters: the slash command's `run`, the model's `streamChat` and retrieval are given as producers, and whatever they do inside is not modelled.
- `ToolContinuation.IntendedRun`: its own contract states only the unknown-id case. Its counts are stated by `ToolContinuation.IntendedRunResumesOnce`.
- `Chat.tsx`'s `handleNewChat` (gui/src/pages/gui/Chat.tsx:501-503) only dispatches a new session and is not modelled on the page; the container's new chat is `ChatContainer.NewChat`.
- The page's history entries keep only the role and the conversation summary, so the history that `updateSession` persists with a new title is modelled to that extent. `window.workspacePaths` is a parameter of the page's constructor, whose first entry (or "") becomes the session's workspace folder.
- The MCP server status type of the wider code base is not part of this model. The statuses are the ones MCPSection.tsx names.

## Findings

| source | as written | input that shows it | evidently intended | confidence | as-written member | corrected member |
|---|---|---|---|---|---|---|
| gui/src/redux/thunks/streamResponseAfterToolCall.ts:165-180 | the `catch` around the external relay also catches a rejected `streamNormalInput`, and then resumes a second time on the internal path | an external backend (custom API base, provider "openai"), a relay that succeeds, and a first resume that is rejected | one resume per completed tool call; the internal fallback only when the relay itself fails | not executed | ToolContinuation.AsWrittenResumesTwice | ToolContinuation.IntendedRun |
| gui/src/redux/thunks/streamResponseAfterToolCall.ts:83-97 | on the external path, `sendToolResultToBackend` dispatches the tool message that the thunk already dispatched at line 140 | an external backend and a relay that succeeds | one tool-role message per tool call | not executed | ToolContinuation.AsWrittenDuplicatesToolMessage | ToolContinuation.IntendedRun |
