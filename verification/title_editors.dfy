/**
 * The two inline title editors: the one on each chat tab (double-click to
 * edit) and the one above a session (click to edit). Both keep an editing
 * flag and the text being typed; a save reports the trimmed text only when it
 * is not blank and differs from the title on record, and every save or cancel
 * leaves editing with the text cleared.
 */
module TitleEditors {
  import opened Wrappers
  import opened Strings
  import opened UiKeys
  import opened ChatPage

  /**
   * The title a save reports: the trimmed text, when it is not blank and is
   * not the title on record. `current` is `None` when no tab carries the id,
   * and then any non-blank text differs from it.
   */
  function EditedTitle(text: string, current: Option<string>): (r: Option<string>)
    ensures r.Some? <==> Trim(text) != "" && current != Some(Trim(text))
    ensures r.Some? ==> r.value == Trim(text)
    ensures r.Some? ==> r.value != "" && Trim(r.value) == r.value && Some(r.value) != current
  {
    TrimIdempotent(text);
    var trimmed := Trim(text);
    if trimmed != "" && current != Some(trimmed) then Some(trimmed) else None
  }

  /** Whitespace around the typed text never changes what a save reports. */
  lemma EditedTitleIgnoresOuterWhitespace(text: string, current: Option<string>)
    ensures EditedTitle(Trim(text), current) == EditedTitle(text, current)
  {
    TrimIdempotent(text);
  }

  /** Once a title has been reported and recorded, saving the same text again reports nothing. */
  lemma EditedTitleSettles(text: string, current: Option<string>)
    requires EditedTitle(text, current).Some?
    ensures EditedTitle(text, EditedTitle(text, current)) == None
  {
  }

  /** `tabs.find(tab => tab.id === tabId)?.title`. */
  function TabTitle(tabs: seq<ChatTab>, tabId: string): (r: Option<string>)
    ensures r.Some? <==> exists i | 0 <= i < |tabs| :: tabs[i].id == tabId
    ensures r.Some? ==> exists i | 0 <= i < |tabs| :: tabs[i].id == tabId && tabs[i].title == r.value
    ensures r.Some? ==> FindChatTab(tabs, tabId).Some? && r.value == tabs[FindChatTab(tabs, tabId).value].title
  {
    match FindChatTab(tabs, tabId)
    case None => None
    case Some(i) => Some(tabs[i].title)
  }

  /** The text a tab shows: its title, or "New Chat" when the title is empty. */
  function DisplayTitle(title: string): (r: string)
    ensures r != ""
    ensures title != "" ==> r == title
    ensures title == "" ==> r == "New Chat"
  {
    if title != "" then title else "New Chat"
  }

  /** The three scroll measurements of the tab strip. */
  datatype ScrollBox = ScrollBox(scrollLeft: int, scrollWidth: int, clientWidth: int)

  /** Which edges of the tab strip show a fade overlay. */
  datatype Fade = Fade(left: bool, right: bool)

  /** The fades `checkScrollOverflow` computes for a strip. */
  function FadeOf(box: ScrollBox): (f: Fade)
    ensures f.left <==> box.scrollLeft > 0
    ensures f.right <==> box.scrollLeft + box.clientWidth < box.scrollWidth
  {
    Fade(box.scrollLeft > 0, box.scrollLeft < box.scrollWidth - box.clientWidth)
  }

  /** A strip wider than its viewport always shows at least one fade. */
  lemma OverflowShowsAFade(box: ScrollBox)
    requires box.scrollWidth > box.clientWidth
    ensures FadeOf(box).left || FadeOf(box).right
  {
  }

  /** A strip that fits, scrolled to its start, shows none. */
  lemma FittingStripShowsNoFade(box: ScrollBox)
    requires box.scrollLeft == 0 && box.scrollWidth <= box.clientWidth
    ensures FadeOf(box) == Fade(false, false)
  {
  }

  /**
   * The tab strip's own state: the hovered tab, the pending 1-second timer
   * that will reveal a close button (held as the tab it was started for),
   * the visible close button, the tab being renamed and its text, and the
   * fades. The callbacks to the parent are recorded in the order made.
   */
  class ChatTabsSelector {
    var hoveredTab: Option<string>
    var hoverTimer: Option<string>
    var showCloseButton: Option<string>
    var editingTab: Option<string>
    var editingTitle: string
    var showFade: Fade
    var selected: seq<string>
    var closed: seq<string>
    var titleEdits: seq<(string, string)>

    constructor()
      ensures hoveredTab.None? && hoverTimer.None? && showCloseButton.None?
      ensures editingTab.None? && editingTitle == "" && showFade == Fade(false, false)
      ensures selected == [] && closed == [] && titleEdits == []
    {
      hoveredTab := None;
      hoverTimer := None;
      showCloseButton := None;
      editingTab := None;
      editingTitle := "";
      showFade := Fade(false, false);
      selected := [];
      closed := [];
      titleEdits := [];
    }

    /** Entering a tab: it becomes the hovered one and a fresh timer replaces any pending one. */
    method HandleTabHover(tabId: string)
      modifies this
      ensures hoveredTab == Some(tabId) && hoverTimer == Some(tabId)
      ensures showCloseButton == old(showCloseButton) && editingTab == old(editingTab) && editingTitle == old(editingTitle)
      ensures showFade == old(showFade) && selected == old(selected) && closed == old(closed) && titleEdits == old(titleEdits)
    {
      hoveredTab := Some(tabId);
      hoverTimer := Some(tabId);
    }

    /**
     * The pending hover timer running out: the close button of the tab it was
     * started for appears. A timeout fires once, so afterwards nothing is
     * pending (clearing a fired handle, as a later leave does, has no effect).
     */
    method HoverTimerFires()
      modifies this
      ensures showCloseButton == (if old(hoverTimer).Some? then old(hoverTimer) else old(showCloseButton))
      ensures hoveredTab == old(hoveredTab) && hoverTimer.None?
      ensures editingTab == old(editingTab) && editingTitle == old(editingTitle)
      ensures showFade == old(showFade) && selected == old(selected) && closed == old(closed) && titleEdits == old(titleEdits)
    {
      if hoverTimer.Some? {
        showCloseButton := hoverTimer;
        hoverTimer := None;
      }
    }

    /** Leaving a tab clears the hover, hides the close button and cancels the timer. */
    method HandleTabLeave()
      modifies this
      ensures hoveredTab.None? && showCloseButton.None? && hoverTimer.None?
      ensures editingTab == old(editingTab) && editingTitle == old(editingTitle)
      ensures showFade == old(showFade) && selected == old(selected) && closed == old(closed) && titleEdits == old(titleEdits)
    {
      hoveredTab := None;
      showCloseButton := None;
      hoverTimer := None;
    }

    /** Clicking a tab selects it. */
    method HandleTabClick(tabId: string)
      modifies this
      ensures selected == old(selected) + [tabId]
      ensures hoveredTab == old(hoveredTab) && hoverTimer == old(hoverTimer) && showCloseButton == old(showCloseButton)
      ensures editingTab == old(editingTab) && editingTitle == old(editingTitle)
      ensures showFade == old(showFade) && closed == old(closed) && titleEdits == old(titleEdits)
    {
      selected := selected + [tabId];
    }

    /** The close button closes its tab and hides itself. */
    method HandleCloseClick(tabId: string)
      modifies this
      ensures closed == old(closed) + [tabId] && showCloseButton.None?
      ensures hoveredTab == old(hoveredTab) && hoverTimer == old(hoverTimer)
      ensures editingTab == old(editingTab) && editingTitle == old(editingTitle)
      ensures showFade == old(showFade) && selected == old(selected) && titleEdits == old(titleEdits)
    {
      closed := closed + [tabId];
      showCloseButton := None;
    }

    /** Double-clicking a title starts renaming that tab from its current title. */
    method HandleTitleDoubleClick(tabId: string, currentTitle: string)
      modifies this
      ensures editingTab == Some(tabId) && editingTitle == currentTitle
      ensures hoveredTab == old(hoveredTab) && hoverTimer == old(hoverTimer) && showCloseButton == old(showCloseButton)
      ensures showFade == old(showFade) && selected == old(selected) && closed == old(closed) && titleEdits == old(titleEdits)
    {
      editingTab := Some(tabId);
      editingTitle := currentTitle;
    }

    /** Typing in the rename box. */
    method HandleTitleInputChange(text: string)
      modifies this
      ensures editingTitle == text && editingTab == old(editingTab)
      ensures hoveredTab == old(hoveredTab) && hoverTimer == old(hoverTimer) && showCloseButton == old(showCloseButton)
      ensures showFade == old(showFade) && selected == old(selected) && closed == old(closed) && titleEdits == old(titleEdits)
    {
      editingTitle := text;
    }

    /**
     * `saveTitle`: the parent hears of the rename only when it has a rename
     * handler and the trimmed text is a new, non-blank title for that tab;
     * editing ends either way.
     */
    method SaveTitle(tabs: seq<ChatTab>, tabId: string, hasTitleEditHandler: bool)
      modifies this
      ensures editingTab.None? && editingTitle == ""
      ensures var e := EditedTitle(old(editingTitle), TabTitle(tabs, tabId));
        titleEdits == old(titleEdits) + (if e.Some? && hasTitleEditHandler then [(tabId, e.value)] else [])
      ensures hoveredTab == old(hoveredTab) && hoverTimer == old(hoverTimer) && showCloseButton == old(showCloseButton)
      ensures showFade == old(showFade) && selected == old(selected) && closed == old(closed)
    {
      var e := EditedTitle(editingTitle, TabTitle(tabs, tabId));
      if e.Some? && hasTitleEditHandler {
        titleEdits := titleEdits + [(tabId, e.value)];
      }
      editingTab := None;
      editingTitle := "";
    }

    /** `cancelEdit`: editing ends and nothing is reported. */
    method CancelEdit()
      modifies this
      ensures editingTab.None? && editingTitle == "" && titleEdits == old(titleEdits)
      ensures hoveredTab == old(hoveredTab) && hoverTimer == old(hoverTimer) && showCloseButton == old(showCloseButton)
      ensures showFade == old(showFade) && selected == old(selected) && closed == old(closed)
    {
      editingTab := None;
      editingTitle := "";
    }

    /** Enter saves, Escape cancels, any other key leaves the editor as it is. */
    method HandleTitleInputKeyDown(tabs: seq<ChatTab>, tabId: string, key: Key, hasTitleEditHandler: bool)
      modifies this
      ensures key != OtherKey ==> editingTab.None? && editingTitle == ""
      ensures key == Enter ==> var e := EditedTitle(old(editingTitle), TabTitle(tabs, tabId));
        titleEdits == old(titleEdits) + (if e.Some? && hasTitleEditHandler then [(tabId, e.value)] else [])
      ensures key == Escape ==> titleEdits == old(titleEdits)
      ensures key == OtherKey ==> editingTab == old(editingTab) && editingTitle == old(editingTitle) && titleEdits == old(titleEdits)
      ensures hoveredTab == old(hoveredTab) && hoverTimer == old(hoverTimer) && showCloseButton == old(showCloseButton)
      ensures showFade == old(showFade) && selected == old(selected) && closed == old(closed)
    {
      if key == Enter {
        SaveTitle(tabs, tabId, hasTitleEditHandler);
      } else if key == Escape {
        CancelEdit();
      }
    }

    /** Leaving the rename box saves. */
    method HandleTitleInputBlur(tabs: seq<ChatTab>, tabId: string, hasTitleEditHandler: bool)
      modifies this
      ensures editingTab.None? && editingTitle == ""
      ensures var e := EditedTitle(old(editingTitle), TabTitle(tabs, tabId));
        titleEdits == old(titleEdits) + (if e.Some? && hasTitleEditHandler then [(tabId, e.value)] else [])
      ensures hoveredTab == old(hoveredTab) && hoverTimer == old(hoverTimer) && showCloseButton == old(showCloseButton)
      ensures showFade == old(showFade) && selected == old(selected) && closed == old(closed)
    {
      SaveTitle(tabs, tabId, hasTitleEditHandler);
    }

    /** `checkScrollOverflow`: recompute the fades, or do nothing while the strip is not mounted. */
    method CheckScrollOverflow(container: Option<ScrollBox>)
      modifies this
      ensures showFade == (if container.Some? then FadeOf(container.value) else old(showFade))
      ensures hoveredTab == old(hoveredTab) && hoverTimer == old(hoverTimer) && showCloseButton == old(showCloseButton)
      ensures editingTab == old(editingTab) && editingTitle == old(editingTitle)
      ensures selected == old(selected) && closed == old(closed) && titleEdits == old(titleEdits)
    {
      if container.Some? {
        showFade := FadeOf(container.value);
      }
    }
  }

  /**
   * The session title above the chat: `isEditing` and the text being typed;
   * the title itself belongs to the parent and is passed in. Each reported
   * change is recorded.
   */
  class SessionTitleEditor {
    var isEditing: bool
    var editingTitle: string
    var changes: seq<string>

    constructor()
      ensures !isEditing && editingTitle == "" && changes == []
    {
      isEditing := false;
      editingTitle := "";
      changes := [];
    }

    /** Clicking the title or the pencil starts editing from the current title. */
    method HandleTitleClick(title: string)
      modifies this
      ensures isEditing && editingTitle == title && changes == old(changes)
    {
      isEditing := true;
      editingTitle := title;
    }

    /** Typing in the box. */
    method HandleInputChange(text: string)
      modifies this
      ensures editingTitle == text && isEditing == old(isEditing) && changes == old(changes)
    {
      editingTitle := text;
    }

    /** `saveTitle`: report a new, non-blank trimmed title; editing ends either way. */
    method SaveTitle(title: string)
      modifies this
      ensures !isEditing && editingTitle == ""
      ensures var e := EditedTitle(old(editingTitle), Some(title));
        changes == old(changes) + (if e.Some? then [e.value] else [])
    {
      var e := EditedTitle(editingTitle, Some(title));
      if e.Some? {
        changes := changes + [e.value];
      }
      isEditing := false;
      editingTitle := "";
    }

    /** `cancelEdit`: editing ends and nothing is reported. */
    method CancelEdit()
      modifies this
      ensures !isEditing && editingTitle == "" && changes == old(changes)
    {
      isEditing := false;
      editingTitle := "";
    }

    /** Enter saves, Escape cancels, any other key changes nothing. */
    method HandleInputKeyDown(title: string, key: Key)
      modifies this
      ensures key != OtherKey ==> !isEditing && editingTitle == ""
      ensures key == Enter ==> var e := EditedTitle(old(editingTitle), Some(title));
        changes == old(changes) + (if e.Some? then [e.value] else [])
      ensures key == Escape ==> changes == old(changes)
      ensures key == OtherKey ==> isEditing == old(isEditing) && editingTitle == old(editingTitle) && changes == old(changes)
    {
      if key == Enter {
        SaveTitle(title);
      } else if key == Escape {
        CancelEdit();
      }
    }

    /** Leaving the box saves. */
    method HandleInputBlur(title: string)
      modifies this
      ensures !isEditing && editingTitle == ""
      ensures var e := EditedTitle(old(editingTitle), Some(title));
        changes == old(changes) + (if e.Some? then [e.value] else [])
    {
      SaveTitle(title);
    }
  }

  /**
   * Clicking the title and saving without typing reports something only when
   * the title carries outer whitespace: then its trimmed form is reported.
   */
  method UntouchedEdit(title: string) returns (changes: seq<string>)
    ensures Trim(title) == title ==> changes == []
    ensures Trim(title) != title && Trim(title) != "" ==> changes == [Trim(title)]
  {
    var editor := new SessionTitleEditor();
    editor.HandleTitleClick(title);
    editor.SaveTitle(title);
    changes := editor.changes;
  }
}
