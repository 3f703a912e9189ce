/**
 * The tab container around the chat: restoring tabs from the local backup,
 * the immediate backup on every change of the tab list, and the tab
 * handlers, each of which dispatches reducers of the tab list in sequence.
 * `now` stands for `Date.now()` and `randomDigits` for the digits
 * `Math.random().toString(36)` yields after its "0.".
 */
module ChatContainer {
  import opened Wrappers
  import opened Strings
  import opened Lists
  import opened Tabs

  const NewChatTitle: string := "새 채팅"

  /** The index of the first tab with that id (`tabs.find(tab => tab.id === tabId)`). */
  function FindTab(tabs: seq<Tab>, id: string): (r: Option<nat>)
    ensures r.Some? ==> r.value < |tabs| && tabs[r.value].id == id
    ensures r.Some? ==> forall j | 0 <= j < r.value :: tabs[j].id != id
    ensures r.None? ==> forall j | 0 <= j < |tabs| :: tabs[j].id != id
  {
    if tabs == [] then None
    else if tabs[0].id == id then Some(0)
    else match FindTab(tabs[1..], id)
      case None => None
      case Some(k) => Some(k + 1)
  }

  /** `activeTab`: the first active tab, if any. */
  function ActiveTab(tabs: seq<Tab>): (r: Option<Tab>)
    ensures r.Some? <==> exists i | 0 <= i < |tabs| :: tabs[i].isActive
    ensures r.Some? ==> r.value in tabs && r.value.isActive
    ensures r.Some? ==> exists i | 0 <= i < |tabs| :: tabs[i] == r.value && forall j | 0 <= j < i :: !tabs[j].isActive
    ensures AtMostOneActive(tabs) ==> forall t | t in tabs && t.isActive :: r == Some(t)
  {
    match FindActive(tabs)
    case None => None
    case Some(i) => Some(tabs[i])
  }

  // ---------------------------------------------------------------- restore

  /** The restore fix-up: a restored list with no active tab gets its first tab activated. */
  function RestoredActivation(tabs: seq<Tab>): (r: seq<Tab>)
    ensures |r| == |tabs|
    ensures tabs != [] ==> FindActive(r).Some?
    ensures FindActive(tabs).Some? ==> r == tabs
    ensures forall i | 0 < i < |tabs| :: r[i] == tabs[i]
    ensures tabs != [] ==> r[0] == tabs[0].(isActive := true) || r[0] == tabs[0]
  {
    if tabs != [] && FindActive(tabs).None? then tabs[0 := tabs[0].(isActive := true)] else tabs
  }

  /** The fix-up keeps a well-formed list well formed, and after it exactly one tab of a non-empty one is active. */
  lemma RestoredActivationKeepsWellFormed(tabs: seq<Tab>)
    requires WellFormed(tabs)
    ensures WellFormed(RestoredActivation(tabs))
    ensures tabs != [] ==> exists i | 0 <= i < |tabs| :: RestoredActivation(tabs)[i].isActive
  {
    var r := RestoredActivation(tabs);
    if tabs != [] && FindActive(tabs).None? {
      assert forall i | 0 < i < |r| :: !r[i].isActive;
      assert forall i | 0 <= i < |r| :: r[i].id == tabs[i].id;
      assert r[0].isActive;
    } else if tabs != [] {
      assert r[FindActive(tabs).value].isActive;
    }
  }

  /** The restore effect marks the first backed-up tab active in place when none is. */
  method ActivateFirstIfNone(backupTabs: array<Tab>)
    modifies backupTabs
    ensures backupTabs[..] == RestoredActivation(old(backupTabs[..]))
  {
    var hasActiveTab := FindActive(backupTabs[..]).Some?;
    if !hasActiveTab && backupTabs.Length > 0 {
      backupTabs[0] := backupTabs[0].(isActive := true);
    }
  }

  /**
   * The mount effect: load the backup and fix up a non-empty one. The
   * restored tabs are only logged; they are not put into the tab list.
   */
  method RestoreOnMount(loaded: Option<array<Tab>>)
    modifies if loaded.Some? then {loaded.value} else {}
    ensures loaded.Some? ==> loaded.value[..] == RestoredActivation(old(loaded.value[..]))
  {
    if loaded.Some? && loaded.value.Length > 0 {
      ActivateFirstIfNone(loaded.value);
    }
  }

  // ---------------------------------------------------------------- handlers

  /** `handleTabClose`: remove the tab; if it was the active one and others remain, activate the first of them. */
  function CloseTab(tabs: seq<Tab>, tabId: string): (r: seq<Tab>)
    ensures forall t | t in r :: t.id != tabId
    ensures |r| <= |tabs|
    ensures forall i | 0 <= i < |tabs| && tabs[i].id != tabId :: exists t | t in r :: t.id == tabs[i].id
    // closing an inactive or unknown tab changes no other tab
    ensures FindTab(tabs, tabId).None? || !tabs[FindTab(tabs, tabId).value].isActive ==> r == RemoveTab(tabs, tabId)
    // closing the active tab hands activity to the first remaining one
    ensures FindTab(tabs, tabId).Some? && tabs[FindTab(tabs, tabId).value].isActive && r != [] ==>
      r[0].isActive && r == SetActiveTab(RemoveTab(tabs, tabId), r[0].id)
  {
    var closingTab := FindTab(tabs, tabId);
    var remainingTabs := RemoveTab(tabs, tabId);
    if closingTab.Some? && tabs[closingTab.value].isActive && |remainingTabs| > 0 then
      SetActiveTab(remainingTabs, remainingTabs[0].id)
    else
      remainingTabs
  }

  /** Closing a tab keeps the list well formed. */
  lemma CloseTabKeepsWellFormed(tabs: seq<Tab>, tabId: string)
    requires WellFormed(tabs)
    ensures WellFormed(CloseTab(tabs, tabId))
  {
    var remaining := RemoveTab(tabs, tabId);
    FilterKeepsWellFormed(tabs, NotId(tabId));
    if |remaining| > 0 {
      SetActiveTabSelects(remaining, remaining[0].id);
    }
  }

  /** A list with an active tab still has one after a close, unless nothing is left. */
  lemma CloseTabKeepsAnActiveTab(tabs: seq<Tab>, tabId: string)
    requires UniqueIds(tabs) && FindActive(tabs).Some?
    ensures CloseTab(tabs, tabId) != [] ==> FindActive(CloseTab(tabs, tabId)).Some?
  {
    var remaining := RemoveTab(tabs, tabId);
    var closing := FindTab(tabs, tabId);
    if closing.Some? && tabs[closing.value].isActive && |remaining| > 0 {
      var r := CloseTab(tabs, tabId);
      assert r[0].isActive;
    } else if |remaining| > 0 {
      var a := FindActive(tabs).value;
      assert tabs[a].id != tabId by {
        if closing.Some? {
          assert a != closing.value;
        }
      }
      assert tabs[a] in remaining;
      var k :| 0 <= k < |remaining| && remaining[k] == tabs[a];
      assert remaining[k].isActive;
    }
  }

  /** The id of a new chat: the time in base 36 followed by the random digits. */
  function NewChatId(now: nat, randomDigits: string): (id: string)
    ensures |id| > |randomDigits| && id[|id| - |randomDigits|..] == randomDigits
    ensures DigitsValue(id[..|id| - |randomDigits|], 36) == now
  {
    Base36RoundTrip(now);
    var id := ToBase36(now) + randomDigits;
    assert id[..|id| - |randomDigits|] == ToBase36(now);
    id
  }

  /** `handleNewChat`: one active tab titled "새 채팅" is added, which deactivates every other tab. */
  function NewChat(tabs: seq<Tab>, now: nat, randomDigits: string): (r: seq<Tab>)
    ensures |r| == |tabs| + 1
    ensures r[|tabs|].title == NewChatTitle && r[|tabs|].isActive && r[|tabs|].sessionId.None?
    ensures r[|tabs|].id == NewChatId(now, randomDigits) && r[|tabs|].timestamp == now
    ensures forall i | 0 <= i < |tabs| :: r[i] == tabs[i].(isActive := false)
  {
    AddTab(tabs, NewTab(NewChatId(now, randomDigits), NewChatTitle, true, None, Some(now)), now)
  }

  /** With a fresh id, the new chat is the only active tab of a well-formed list. */
  lemma NewChatIsSoleActive(tabs: seq<Tab>, now: nat, randomDigits: string)
    requires UniqueIds(tabs)
    requires forall t | t in tabs :: t.id != NewChatId(now, randomDigits)
    ensures WellFormed(NewChat(tabs, now, randomDigits))
    ensures ActiveTab(NewChat(tabs, now, randomDigits)) == Some(NewChat(tabs, now, randomDigits)[|tabs|])
  {
    AddActiveTabIsSoleActive(tabs, NewTab(NewChatId(now, randomDigits), NewChatTitle, true, None, Some(now)), now);
  }

  /** `handleTabTitleEdit`: only that tab's title changes. */
  function RetitleTab(tabs: seq<Tab>, tabId: string, newTitle: string): (r: seq<Tab>)
    ensures |r| == |tabs|
    ensures forall i | 0 <= i < |tabs| :: r[i] == (if tabs[i].id == tabId then tabs[i].(title := newTitle) else tabs[i])
  {
    UpdateTab(tabs, tabId, TabUpdates(None, Some(newTitle), None, None, None))
  }

  /**
   * The container's state: the tab list it reads from the store, whether the
   * history panel is open, and the lists handed to the immediate backup.
   */
  class ChatContainerState {
    var chatTabs: seq<Tab>
    var isHistoryOpen: bool
    var backups: seq<seq<Tab>>

    constructor(tabs: seq<Tab>)
      ensures chatTabs == tabs && !isHistoryOpen && backups == []
    {
      chatTabs := tabs;
      isHistoryOpen := false;
      backups := [];
    }

    /** The effect on every change of the tab list: back up a non-empty list at once. */
    method OnTabsChanged()
      modifies this
      ensures backups == old(backups) + (if chatTabs != [] then [chatTabs] else [])
      ensures chatTabs == old(chatTabs) && isHistoryOpen == old(isHistoryOpen)
    {
      if |chatTabs| > 0 {
        backups := backups + [chatTabs];
      }
    }

    /** `handleTabSelect`. */
    method HandleTabSelect(tabId: string)
      modifies this
      ensures chatTabs == SetActiveTab(old(chatTabs), tabId)
      ensures isHistoryOpen == old(isHistoryOpen) && backups == old(backups)
    {
      chatTabs := SetActiveTab(chatTabs, tabId);
    }

    /** `handleTabClose`: `removeTab`, then `setActiveTab` on the first remaining tab when the active one was closed. */
    method HandleTabClose(tabId: string)
      modifies this
      ensures chatTabs == CloseTab(old(chatTabs), tabId)
      ensures isHistoryOpen == old(isHistoryOpen) && backups == old(backups)
    {
      var tabs := chatTabs;
      var closingTab := FindTab(tabs, tabId);
      var wasActive := closingTab.Some? && tabs[closingTab.value].isActive;
      var remainingTabs := RemoveTab(tabs, tabId);
      chatTabs := remainingTabs;
      if wasActive && |remainingTabs| > 0 {
        var nextTab := remainingTabs[0];
        chatTabs := SetActiveTab(remainingTabs, nextTab.id);
      }
      assert chatTabs == CloseTab(tabs, tabId);
    }

    /** `handleNewChat`. */
    method HandleNewChat(now: nat, randomDigits: string)
      modifies this
      ensures chatTabs == NewChat(old(chatTabs), now, randomDigits)
      ensures isHistoryOpen == old(isHistoryOpen) && backups == old(backups)
    {
      chatTabs := AddTab(chatTabs, NewTab(NewChatId(now, randomDigits), NewChatTitle, true, None, Some(now)), now);
    }

    /** `handleToggleHistory`. */
    method HandleToggleHistory()
      modifies this
      ensures isHistoryOpen == !old(isHistoryOpen)
      ensures chatTabs == old(chatTabs) && backups == old(backups)
    {
      isHistoryOpen := !isHistoryOpen;
    }

    /** `handleTabTitleEdit`. */
    method HandleTabTitleEdit(tabId: string, newTitle: string)
      modifies this
      ensures chatTabs == RetitleTab(old(chatTabs), tabId, newTitle)
      ensures isHistoryOpen == old(isHistoryOpen) && backups == old(backups)
    {
      chatTabs := UpdateTab(chatTabs, tabId, TabUpdates(None, Some(newTitle), None, None, None));
    }
  }
}
