/**
 * The chat tab list (gui/src/redux/slices/tabsSlice.ts): each reducer maps
 * the current list of tabs to the next one. Time and random ids are
 * parameters: `now` for `Date.now()`, `freshId` for the generated id.
 */
module Tabs {
  import opened Wrappers
  import opened ChatTypes
  import opened Lists

  datatype Tab = Tab(id: string, title: string, isActive: bool, sessionId: Option<string>, timestamp: int)

  /** `Partial<Tab>`: each present field overrides the tab's own; `sessionId := Some(None)` clears it. */
  datatype TabUpdates = TabUpdates(
    id: Option<string>,
    title: Option<string>,
    isActive: Option<bool>,
    sessionId: Option<Option<string>>,
    timestamp: Option<int>)

  /** The `addTab` payload: a tab whose timestamp may be missing. */
  datatype NewTab = NewTab(id: string, title: string, isActive: bool, sessionId: Option<string>, timestamp: Option<int>)

  const FirstTabTitle: string := "Chat 1"

  /** At most one tab is active. */
  predicate AtMostOneActive(tabs: seq<Tab>) {
    forall i, j | 0 <= i < j < |tabs| :: !(tabs[i].isActive && tabs[j].isActive)
  }

  /** Tab ids are distinct. */
  predicate UniqueIds(tabs: seq<Tab>) {
    forall i, j | 0 <= i < j < |tabs| :: tabs[i].id != tabs[j].id
  }

  /** A well-formed tab list: distinct ids and at most one active tab. */
  predicate WellFormed(tabs: seq<Tab>) {
    UniqueIds(tabs) && AtMostOneActive(tabs)
  }

  /** The initial state: one active tab titled "Chat 1". */
  function InitialTabs(id: string, now: int): (tabs: seq<Tab>)
    ensures |tabs| == 1 && tabs[0].isActive && tabs[0].title == FirstTabTitle && tabs[0].sessionId.None?
    ensures WellFormed(tabs)
  {
    [Tab(id, FirstTabTitle, true, None, now)]
  }

  /** The index of the first active tab (`tabs.find(tab => tab.isActive)`). */
  function FindActive(tabs: seq<Tab>): (r: Option<nat>)
    ensures r.Some? ==> r.value < |tabs| && tabs[r.value].isActive
    ensures r.Some? ==> forall j | 0 <= j < r.value :: !tabs[j].isActive
    ensures r.None? ==> forall j | 0 <= j < |tabs| :: !tabs[j].isActive
  {
    if tabs == [] then None
    else if tabs[0].isActive then Some(0)
    else match FindActive(tabs[1..])
      case None => None
      case Some(k) => Some(k + 1)
  }

  /** The index of the first tab holding `sessionId`. */
  function FindSessionTab(tabs: seq<Tab>, sessionId: string): (r: Option<nat>)
    ensures r.Some? ==> r.value < |tabs| && tabs[r.value].sessionId == Some(sessionId)
    ensures r.Some? ==> forall j | 0 <= j < r.value :: tabs[j].sessionId != Some(sessionId)
    ensures r.None? ==> forall j | 0 <= j < |tabs| :: tabs[j].sessionId != Some(sessionId)
  {
    if tabs == [] then None
    else if tabs[0].sessionId == Some(sessionId) then Some(0)
    else match FindSessionTab(tabs[1..], sessionId)
      case None => None
      case Some(k) => Some(k + 1)
  }

  // ---------------------------------------------------------------- reducers

  /** `setTabs`: the payload replaces the list. */
  function SetTabs(tabs: seq<Tab>, payload: seq<Tab>): (r: seq<Tab>)
    ensures r == payload
  {
    payload
  }

  /** `{...tab, ...updates}`: a field present in the updates wins, an absent one keeps the tab's value. */
  function Merge(tab: Tab, u: TabUpdates): (t: Tab)
    ensures t.id == (if u.id.Some? then u.id.value else tab.id)
    ensures t.title == (if u.title.Some? then u.title.value else tab.title)
    ensures t.isActive == (if u.isActive.Some? then u.isActive.value else tab.isActive)
    ensures t.sessionId == (if u.sessionId.Some? then u.sessionId.value else tab.sessionId)
    ensures t.timestamp == (if u.timestamp.Some? then u.timestamp.value else tab.timestamp)
    ensures u == TabUpdates(None, None, None, None, None) ==> t == tab
  {
    Tab(u.id.GetOr(tab.id), u.title.GetOr(tab.title), u.isActive.GetOr(tab.isActive),
        u.sessionId.GetOr(tab.sessionId), u.timestamp.GetOr(tab.timestamp))
  }

  /** `updateTab`: the updates are merged into every tab with that id; nothing else changes. */
  function UpdateTab(tabs: seq<Tab>, id: string, u: TabUpdates): (r: seq<Tab>)
    ensures |r| == |tabs|
    ensures forall i | 0 <= i < |tabs| && tabs[i].id != id :: r[i] == tabs[i]
    ensures forall i | 0 <= i < |tabs| && tabs[i].id == id :: r[i] == Merge(tabs[i], u)
  {
    seq(|tabs|, i requires 0 <= i < |tabs| => if tabs[i].id == id then Merge(tabs[i], u) else tabs[i])
  }

  /** Applying the same update twice is applying it once, as long as it keeps the id. */
  lemma UpdateTabIdempotent(tabs: seq<Tab>, id: string, u: TabUpdates)
    requires u.id.None? || u.id == Some(id)
    ensures UpdateTab(UpdateTab(tabs, id, u), id, u) == UpdateTab(tabs, id, u)
  {
  }

  /** A title-only update keeps the list well formed. */
  lemma UpdateTitleKeepsWellFormed(tabs: seq<Tab>, id: string, title: string)
    requires WellFormed(tabs)
    ensures WellFormed(UpdateTab(tabs, id, TabUpdates(None, Some(title), None, None, None)))
  {
    var r := UpdateTab(tabs, id, TabUpdates(None, Some(title), None, None, None));
    assert forall i | 0 <= i < |tabs| :: r[i].id == tabs[i].id && r[i].isActive == tabs[i].isActive;
  }

  /** `addTab`: the new tab goes last; if it is active, every earlier tab is deactivated. */
  function AddTab(tabs: seq<Tab>, n: NewTab, now: int): (r: seq<Tab>)
    ensures |r| == |tabs| + 1
    ensures r[|tabs|] == Tab(n.id, n.title, n.isActive, n.sessionId,
                              if n.timestamp.Some? && n.timestamp.value != 0 then n.timestamp.value else now)
    ensures forall i | 0 <= i < |tabs| :: r[i] == tabs[i].(isActive := if n.isActive then false else tabs[i].isActive)
  {
    var stamp := if n.timestamp.Some? && n.timestamp.value != 0 then n.timestamp.value else now;
    seq(|tabs|, i requires 0 <= i < |tabs| => tabs[i].(isActive := if n.isActive then false else tabs[i].isActive))
    + [Tab(n.id, n.title, n.isActive, n.sessionId, stamp)]
  }

  /** Adding an active tab under a new id leaves it the only active tab of a well-formed list. */
  lemma AddActiveTabIsSoleActive(tabs: seq<Tab>, n: NewTab, now: int)
    requires UniqueIds(tabs) && n.isActive
    requires forall t | t in tabs :: t.id != n.id
    ensures var r := AddTab(tabs, n, now);
      WellFormed(r) && FindActive(r) == Some(|tabs|)
  {
    var r := AddTab(tabs, n, now);
    assert forall i | 0 <= i < |tabs| :: r[i].id == tabs[i].id && tabs[i] in tabs;
  }

  /** The `removeTab` filter condition. */
  function NotId(id: string): Tab -> bool {
    (t: Tab) => t.id != id
  }

  /** `removeTab`: exactly the tabs with that id are dropped; the rest keep their order. */
  function RemoveTab(tabs: seq<Tab>, id: string): (r: seq<Tab>)
    ensures forall t | t in r :: t in tabs && t.id != id
    ensures forall i | 0 <= i < |tabs| && tabs[i].id != id :: tabs[i] in r
    ensures forall t | t in tabs && t.id != id :: multiset(r)[t] == multiset(tabs)[t]
    ensures IsSublist(r, tabs)
  {
    FilterIsSublist(tabs, NotId(id));
    FilterCounts(tabs, NotId(id));
    Filter(tabs, NotId(id))
  }

  /** Removing the same id twice removes it once. */
  lemma RemoveTabIdempotent(tabs: seq<Tab>, id: string)
    ensures RemoveTab(RemoveTab(tabs, id), id) == RemoveTab(tabs, id)
  {
    FilterIdempotent(tabs, NotId(id));
  }

  /** `setActiveTab`: a tab is active iff its id is the argument; nothing else changes. */
  function SetActiveTab(tabs: seq<Tab>, id: string): (r: seq<Tab>)
    ensures |r| == |tabs|
    ensures forall i | 0 <= i < |tabs| :: r[i] == tabs[i].(isActive := tabs[i].id == id)
  {
    seq(|tabs|, i requires 0 <= i < |tabs| => tabs[i].(isActive := tabs[i].id == id))
  }

  /** With distinct ids, the selected tab becomes the only active one; an absent id leaves none active. */
  lemma SetActiveTabSelects(tabs: seq<Tab>, id: string)
    requires UniqueIds(tabs)
    ensures WellFormed(SetActiveTab(tabs, id))
    ensures (exists t | t in tabs :: t.id == id) ==> FindActive(SetActiveTab(tabs, id)).Some?
    ensures (forall t | t in tabs :: t.id != id) ==> FindActive(SetActiveTab(tabs, id)).None?
  {
    var r := SetActiveTab(tabs, id);
    if exists t | t in tabs :: t.id == id {
      var t :| t in tabs && t.id == id;
      var k :| 0 <= k < |tabs| && tabs[k] == t;
      assert r[k].isActive;
    }
  }

  // ---------------------------------------------------------------- session change

  /** How `handleSessionChange` went. */
  datatype SessionChangeCase = NoActiveTab | SameSession | SwitchToExisting(index: nat) | AdoptSession | OpenNewTab

  function SessionChangeCaseOf(tabs: seq<Tab>, sessionId: string): SessionChangeCase {
    match FindActive(tabs)
    case None => NoActiveTab
    case Some(a) =>
      if tabs[a].sessionId == Some(sessionId) then SameSession
      else match FindSessionTab(tabs, sessionId)
        case Some(e) => SwitchToExisting(e)
        case None => if !Truthy(tabs[a].sessionId) then AdoptSession else OpenNewTab
  }

  /** The switch-case filter condition: the tab has a session, or it is the one to keep. */
  function AssignedOr(keepId: string): Tab -> bool {
    (t: Tab) => Truthy(t.sessionId) || t.id == keepId
  }

  /** In the switch case: keep tabs with a session, and the existing tab. */
  function KeepAssigned(tabs: seq<Tab>, keepId: string): (r: seq<Tab>)
    ensures forall t | t in r :: t in tabs && (Truthy(t.sessionId) || t.id == keepId)
    ensures forall i | 0 <= i < |tabs| && (Truthy(tabs[i].sessionId) || tabs[i].id == keepId) :: tabs[i] in r
    ensures forall t | t in tabs && (Truthy(t.sessionId) || t.id == keepId) :: multiset(r)[t] == multiset(tabs)[t]
    ensures IsSublist(r, tabs)
  {
    FilterIsSublist(tabs, AssignedOr(keepId));
    FilterCounts(tabs, AssignedOr(keepId));
    Filter(tabs, AssignedOr(keepId))
  }

  /** In the switch case: the existing tab becomes the active one, and tabs of the session get the title. */
  function ActivateExisting(tabs: seq<Tab>, existingId: string, sessionId: string, title: string): (r: seq<Tab>)
    ensures |r| == |tabs|
    ensures forall i | 0 <= i < |tabs| ::
      r[i] == tabs[i].(isActive := tabs[i].id == existingId,
                      title := if tabs[i].sessionId == Some(sessionId) then title else tabs[i].title)
  {
    seq(|tabs|, i requires 0 <= i < |tabs| =>
      tabs[i].(isActive := tabs[i].id == existingId,
               title := if tabs[i].sessionId == Some(sessionId) then title else tabs[i].title))
  }

  /**
   * `handleSessionChange`: make the current session's tab the active one,
   * giving it the session's title. `newTabId` is the caller's id for a new
   * tab (used when truthy), `freshId` the generated one.
   */
  function HandleSessionChange(tabs: seq<Tab>, sessionId: string, title: string, newTabId: Option<string>,
                               now: int, freshId: string): (r: seq<Tab>)
    // no active tab: nothing changes
    ensures FindActive(tabs).None? ==> r == tabs
    // the active tab holds the session: only the title of the tabs with its id changes
    ensures SessionChangeCaseOf(tabs, sessionId) == SameSession ==>
      var a := tabs[FindActive(tabs).value];
      r == UpdateTab(tabs, a.id, TabUpdates(None, Some(title), None, None, None))
    // another tab holds it: unassigned tabs other than that one go, and that one becomes active
    ensures SessionChangeCaseOf(tabs, sessionId).SwitchToExisting? ==>
      var e := tabs[SessionChangeCaseOf(tabs, sessionId).index];
      r == ActivateExisting(KeepAssigned(tabs, e.id), e.id, sessionId, title)
    // the active tab has no session: it adopts this one
    ensures SessionChangeCaseOf(tabs, sessionId) == AdoptSession ==>
      var a := tabs[FindActive(tabs).value];
      r == UpdateTab(tabs, a.id, TabUpdates(None, Some(title), None, Some(Some(sessionId)), None))
    // the active tab holds another session: a new active tab for this one is appended
    ensures SessionChangeCaseOf(tabs, sessionId) == OpenNewTab ==>
      |r| == |tabs| + 1
      && (forall i | 0 <= i < |tabs| :: r[i] == tabs[i].(isActive := false))
      && r[|tabs|] == Tab(if Truthy(newTabId) then newTabId.value else freshId, title, true, Some(sessionId), now)
  {
    match SessionChangeCaseOf(tabs, sessionId)
    case NoActiveTab => tabs
    case SameSession =>
      UpdateTab(tabs, tabs[FindActive(tabs).value].id, TabUpdates(None, Some(title), None, None, None))
    case SwitchToExisting(e) =>
      ActivateExisting(KeepAssigned(tabs, tabs[e].id), tabs[e].id, sessionId, title)
    case AdoptSession =>
      UpdateTab(tabs, tabs[FindActive(tabs).value].id, TabUpdates(None, Some(title), None, Some(Some(sessionId)), None))
    case OpenNewTab =>
      seq(|tabs|, i requires 0 <= i < |tabs| => tabs[i].(isActive := false))
      + [Tab(if Truthy(newTabId) then newTabId.value else freshId, title, true, Some(sessionId), now)]
  }

  /**
   * Whenever there was an active tab, afterwards an active tab holds the
   * session and carries its title.
   */
  lemma SessionChangeActivatesSession(tabs: seq<Tab>, sessionId: string, title: string, newTabId: Option<string>,
                                      now: int, freshId: string)
    requires FindActive(tabs).Some?
    ensures var r := HandleSessionChange(tabs, sessionId, title, newTabId, now, freshId);
      exists k | 0 <= k < |r| :: r[k].isActive && r[k].sessionId == Some(sessionId) && r[k].title == title
  {
    var r := HandleSessionChange(tabs, sessionId, title, newTabId, now, freshId);
    var a := FindActive(tabs).value;
    match SessionChangeCaseOf(tabs, sessionId)
    case SameSession =>
      assert r[a].isActive && r[a].sessionId == Some(sessionId) && r[a].title == title;
    case SwitchToExisting(e) =>
      var kept := KeepAssigned(tabs, tabs[e].id);
      assert tabs[e] in kept;
      var k :| 0 <= k < |kept| && kept[k] == tabs[e];
      assert r[k].isActive && r[k].sessionId == Some(sessionId) && r[k].title == title;
    case AdoptSession =>
      assert r[a].isActive && r[a].sessionId == Some(sessionId) && r[a].title == title;
    case OpenNewTab =>
      assert r[|tabs|].isActive && r[|tabs|].sessionId == Some(sessionId) && r[|tabs|].title == title;
  }

  /** Putting a tab with a new id in front keeps ids distinct. */
  lemma UniqueCons(t: Tab, rest: seq<Tab>)
    requires UniqueIds(rest)
    requires forall u | u in rest :: u.id != t.id
    ensures UniqueIds([t] + rest)
  {
    var r := [t] + rest;
    forall i, j | 0 <= i < j < |r|
      ensures r[i].id != r[j].id
    {
      assert r[j] == rest[j - 1];
      if i > 0 {
        assert r[i] == rest[i - 1];
      }
    }
  }

  /** Putting a tab in front of tabs that are all inactive, or putting an inactive tab in front, keeps at most one active. */
  lemma ActiveCons(t: Tab, rest: seq<Tab>)
    requires AtMostOneActive(rest)
    requires t.isActive ==> forall u | u in rest :: !u.isActive
    ensures AtMostOneActive([t] + rest)
  {
    var r := [t] + rest;
    forall i, j | 0 <= i < j < |r|
      ensures !(r[i].isActive && r[j].isActive)
    {
      assert r[j] == rest[j - 1];
      if i > 0 {
        assert r[i] == rest[i - 1];
      }
    }
  }

  /** Dropping tabs from a list keeps its ids distinct and keeps at most one active. */
  lemma {:induction false} FilterKeepsWellFormed(tabs: seq<Tab>, keep: Tab -> bool)
    ensures UniqueIds(tabs) ==> UniqueIds(Filter(tabs, keep))
    ensures AtMostOneActive(tabs) ==> AtMostOneActive(Filter(tabs, keep))
    decreases |tabs|
  {
    if tabs != [] {
      var tail := tabs[1..];
      assert UniqueIds(tabs) ==> UniqueIds(tail) by {
        if UniqueIds(tabs) {
          forall i, j | 0 <= i < j < |tail|
            ensures tail[i].id != tail[j].id
          {
            assert tail[i] == tabs[i + 1] && tail[j] == tabs[j + 1];
          }
        }
      }
      assert AtMostOneActive(tabs) ==> AtMostOneActive(tail) by {
        if AtMostOneActive(tabs) {
          forall i, j | 0 <= i < j < |tail|
            ensures !(tail[i].isActive && tail[j].isActive)
          {
            assert tail[i] == tabs[i + 1] && tail[j] == tabs[j + 1];
          }
        }
      }
      FilterKeepsWellFormed(tail, keep);
      var rest := Filter(tail, keep);
      assert Filter(tabs, keep) == (if keep(tabs[0]) then [tabs[0]] else []) + rest;
      if keep(tabs[0]) {
        forall u | u in rest
          ensures UniqueIds(tabs) ==> u.id != tabs[0].id
          ensures AtMostOneActive(tabs) && tabs[0].isActive ==> !u.isActive
        {
          var k :| 0 <= k < |tail| && tail[k] == u;
          assert u == tabs[k + 1];
        }
        if UniqueIds(tabs) {
          UniqueCons(tabs[0], rest);
        }
        if AtMostOneActive(tabs) {
          ActiveCons(tabs[0], rest);
        }
      } else {
        assert Filter(tabs, keep) == rest;
      }
    }
  }

  /**
   * A well-formed list stays well formed through a session change, provided
   * the id chosen for a new tab is not in use.
   */
  lemma SessionChangeKeepsWellFormed(tabs: seq<Tab>, sessionId: string, title: string, newTabId: Option<string>,
                                     now: int, freshId: string)
    requires WellFormed(tabs)
    requires forall t | t in tabs :: t.id != (if Truthy(newTabId) then newTabId.value else freshId)
    ensures WellFormed(HandleSessionChange(tabs, sessionId, title, newTabId, now, freshId))
  {
    var r := HandleSessionChange(tabs, sessionId, title, newTabId, now, freshId);
    match SessionChangeCaseOf(tabs, sessionId)
    case NoActiveTab =>
    case SameSession =>
      UpdateTitleKeepsWellFormed(tabs, tabs[FindActive(tabs).value].id, title);
    case SwitchToExisting(e) =>
      FilterKeepsWellFormed(tabs, AssignedOr(tabs[e].id));
    case AdoptSession =>
      var a := FindActive(tabs).value;
      assert forall i | 0 <= i < |tabs| :: r[i].id == tabs[i].id && r[i].isActive == tabs[i].isActive;
    case OpenNewTab =>
      assert forall i | 0 <= i < |tabs| :: r[i].id == tabs[i].id && tabs[i] in tabs;
  }
}
