/**
 * The local backup of the tab list (gui/src/util/tabsBackup.ts). The
 * storage entry under "continue_tabs_backup" is a field of the manager, held
 * as what `JSON.parse` would make of it; `now` is `Date.now()`, and whether
 * the storage accepts a write is a parameter.
 */
module TabsBackup {
  import opened Wrappers
  import opened Strings
  import opened Tabs

  const BackupKey: string := "continue_tabs_backup"
  const BackupInterval: int := 30000
  const BackupVersion: int := 1
  const MaxAgeMs: int := 86400000
  const MinGapMs: int := 5000
  const DefaultTitle: string := "새 채팅"

  /** A stored tab as it comes back from JSON: any field may be missing. */
  datatype RawTab = RawTab(id: Option<string>, title: Option<string>, isActive: Option<bool>,
                           sessionId: Option<string>, timestamp: Option<int>)

  /** One element of the stored `tabs` array: `null` makes the normalising `map` throw. */
  datatype RawEntry = NullEntry | Entry(tab: RawTab)

  /**
   * A parsed backup. `tabs` is `None` when it is missing or not an array, and
   * `timestamp` is `None` when it is missing (the age check then compares
   * `NaN` and never expires).
   */
  datatype StoredBackup = StoredBackup(tabs: Option<seq<RawEntry>>, timestamp: Option<int>, version: Option<int>)

  /** The storage entry: absent, unreadable as JSON, or a parsed backup. */
  datatype Entry = Absent | Unparseable | Parsed(backup: StoredBackup)

  /** How a tab is written: every field present. */
  function ToRaw(t: Tab): (r: RawTab)
    ensures r.id == Some(t.id) && r.title == Some(t.title) && r.isActive == Some(t.isActive)
    ensures r.sessionId == t.sessionId && r.timestamp == Some(t.timestamp)
  {
    RawTab(Some(t.id), Some(t.title), Some(t.isActive), t.sessionId, Some(t.timestamp))
  }

  /** The record `saveTabsToLocalStorage` writes. */
  function BackupOf(tabs: seq<Tab>, now: int): (b: StoredBackup)
    ensures b.timestamp == Some(now) && b.version == Some(BackupVersion)
    ensures b.tabs.Some? && |b.tabs.value| == |tabs|
    ensures forall i | 0 <= i < |tabs| :: b.tabs.value[i] == Entry(ToRaw(tabs[i]))
  {
    StoredBackup(Some(seq(|tabs|, i requires 0 <= i < |tabs| => Entry(ToRaw(tabs[i])))), Some(now), Some(BackupVersion))
  }

  /**
   * The restore `map`: a missing or empty id becomes the time in base 36, a
   * missing or empty title "새 채팅", a missing flag false, a missing or zero
   * timestamp the current time.
   */
  function NormalizeTab(raw: RawTab, now: nat): (t: Tab)
    ensures t.id != "" && t.title != ""
    ensures t.id == (if raw.id.Some? && raw.id.value != "" then raw.id.value else ToBase36(now))
    ensures t.title == (if raw.title.Some? && raw.title.value != "" then raw.title.value else DefaultTitle)
    ensures t.isActive == (raw.isActive == Some(true))
    ensures t.sessionId == raw.sessionId
    ensures t.timestamp == (if raw.timestamp.Some? && raw.timestamp.value != 0 then raw.timestamp.value else now)
  {
    Tab(if raw.id.Some? && raw.id.value != "" then raw.id.value else ToBase36(now),
        if raw.title.Some? && raw.title.value != "" then raw.title.value else DefaultTitle,
        raw.isActive == Some(true),
        raw.sessionId,
        if raw.timestamp.Some? && raw.timestamp.value != 0 then raw.timestamp.value else now)
  }

  /** A tab every default would leave alone: non-empty id and title, non-zero timestamp. */
  predicate Complete(t: Tab) {
    t.id != "" && t.title != "" && t.timestamp != 0
  }

  /** Normalising a written complete tab gives it back. */
  lemma NormalizeWrittenTab(t: Tab, now: nat)
    requires Complete(t)
    ensures NormalizeTab(ToRaw(t), now) == t
  {
  }

  /** Normalising is idempotent. */
  lemma NormalizeIdempotent(raw: RawTab, now: nat)
    ensures NormalizeTab(ToRaw(NormalizeTab(raw, now)), now) == NormalizeTab(raw, now)
  {
    var t := NormalizeTab(raw, now);
    assert t.timestamp != 0 || now == 0;
  }

  /** Every entry of the stored array can be normalised. */
  predicate NoNullEntry(entries: seq<RawEntry>) {
    forall i | 0 <= i < |entries| :: entries[i].Entry?
  }

  /** The normalised tabs of an array without `null`. */
  function NormalizeAll(entries: seq<RawEntry>, now: nat): (r: seq<Tab>)
    requires NoNullEntry(entries)
    ensures |r| == |entries|
    ensures forall i | 0 <= i < |entries| :: r[i] == NormalizeTab(entries[i].tab, now)
  {
    seq(|entries|, i requires 0 <= i < |entries| => NormalizeTab(entries[i].tab, now))
  }

  /** What a load gives, and whether it clears the entry. */
  datatype LoadOutcome = LoadOutcome(tabs: Option<seq<Tab>>, clears: bool)

  /**
   * `loadTabsFromLocalStorage`: nothing stored gives `null`; an unreadable
   * entry, a backup older than a day, or a `null` element (the `map` throws)
   * clears the entry and gives `null`; a missing or non-array `tabs` gives
   * `null` and keeps the entry; otherwise the normalised tabs.
   */
  function LoadOf(entry: Entry, now: nat): (r: LoadOutcome)
    ensures entry == Absent ==> r == LoadOutcome(None, false)
    ensures entry == Unparseable ==> r == LoadOutcome(None, true)
    ensures r.tabs.Some? <==> entry.Parsed? && !Expired(entry.backup, now) && entry.backup.tabs.Some?
                              && NoNullEntry(entry.backup.tabs.value)
    ensures r.tabs.Some? ==> |r.tabs.value| == |entry.backup.tabs.value| && !r.clears
    ensures r.tabs.Some? ==> forall i | 0 <= i < |r.tabs.value| :: r.tabs.value[i] == NormalizeTab(entry.backup.tabs.value[i].tab, now)
    ensures entry.Parsed? && Expired(entry.backup, now) ==> r == LoadOutcome(None, true)
  {
    match entry
    case Absent => LoadOutcome(None, false)
    case Unparseable => LoadOutcome(None, true)
    case Parsed(backup) =>
      if Expired(backup, now) then LoadOutcome(None, true)
      else if backup.tabs.None? then LoadOutcome(None, false)
      else if !NoNullEntry(backup.tabs.value) then LoadOutcome(None, true)
      else LoadOutcome(Some(NormalizeAll(backup.tabs.value, now)), false)
  }

  /** The age check: strictly more than 24 hours; a backup without a timestamp never expires. */
  predicate Expired(backup: StoredBackup, now: int) {
    backup.timestamp.Some? && now - backup.timestamp.value > MaxAgeMs
  }

  /** A backup saved at most a day ago loads back the same tabs when each of them is complete. */
  lemma SaveLoadRoundTrip(tabs: seq<Tab>, savedAt: nat, now: nat)
    requires forall i | 0 <= i < |tabs| :: Complete(tabs[i])
    requires now - savedAt <= MaxAgeMs
    ensures LoadOf(Parsed(BackupOf(tabs, savedAt)), now) == LoadOutcome(Some(tabs), false)
  {
    var b := BackupOf(tabs, savedAt);
    assert !Expired(b, now) && NoNullEntry(b.tabs.value);
    var r := LoadOf(Parsed(b), now).tabs.value;
    forall i | 0 <= i < |tabs|
      ensures r[i] == tabs[i]
    {
      NormalizeWrittenTab(tabs[i], now);
    }
    assert r == tabs;
  }

  /** A backup saved more than a day ago never loads. */
  lemma StaleBackupIsCleared(tabs: seq<Tab>, savedAt: nat, now: nat)
    requires now - savedAt > MaxAgeMs
    ensures LoadOf(Parsed(BackupOf(tabs, savedAt)), now) == LoadOutcome(None, true)
  {
  }

  /**
   * `TabsBackupManager`: the storage entry, the time of the last successful
   * save, and the auto-backup interval timer (held as a handle). `liveTimers`
   * are the intervals that have been started and not cleared.
   */
  class TabsBackupManager {
    var entry: Entry
    var lastBackupTime: int
    var backupTimer: Option<nat>
    var liveTimers: set<nat>

    /** At most one auto-backup interval is alive, and it is the one held. */
    predicate Valid()
      reads this
    {
      liveTimers == (if backupTimer.Some? then {backupTimer.value} else {})
    }

    constructor(stored: Entry)
      ensures Valid() && entry == stored && lastBackupTime == 0 && backupTimer.None?
    {
      entry := stored;
      lastBackupTime := 0;
      backupTimer := None;
      liveTimers := {};
    }

    /** `saveTabsToLocalStorage`: write `{tabs, timestamp: now, version: 1}`; a failed write changes nothing. */
    method SaveTabsToLocalStorage(tabs: seq<Tab>, now: int, writeOk: bool)
      requires Valid()
      modifies this
      ensures Valid() && backupTimer == old(backupTimer)
      ensures writeOk ==> entry == Parsed(BackupOf(tabs, now)) && lastBackupTime == now
      ensures !writeOk ==> entry == old(entry) && lastBackupTime == old(lastBackupTime)
    {
      if writeOk {
        entry := Parsed(BackupOf(tabs, now));
        lastBackupTime := now;
      }
    }

    /** `loadTabsFromLocalStorage`. */
    method LoadTabsFromLocalStorage(now: nat) returns (tabs: Option<seq<Tab>>)
      requires Valid()
      modifies this
      ensures Valid() && backupTimer == old(backupTimer) && lastBackupTime == old(lastBackupTime)
      ensures tabs == LoadOf(old(entry), now).tabs
      ensures entry == (if LoadOf(old(entry), now).clears then Absent else old(entry))
    {
      var outcome := LoadOf(entry, now);
      if outcome.clears {
        ClearBackup();
      }
      tabs := outcome.tabs;
    }

    /** `clearBackup`. */
    method ClearBackup()
      requires Valid()
      modifies this
      ensures Valid() && entry == Absent
      ensures backupTimer == old(backupTimer) && lastBackupTime == old(lastBackupTime)
    {
      entry := Absent;
    }

    /** `stopAutoBackup`: the held interval, if any, is cleared. */
    method StopAutoBackup()
      requires Valid()
      modifies this
      ensures Valid() && backupTimer.None? && liveTimers == {}
      ensures entry == old(entry) && lastBackupTime == old(lastBackupTime)
    {
      if backupTimer.Some? {
        liveTimers := liveTimers - {backupTimer.value};
        backupTimer := None;
      }
    }

    /** `startAutoBackup`: the old interval is always stopped first, so exactly one is alive afterwards. */
    method StartAutoBackup(handle: nat)
      requires Valid()
      modifies this
      ensures Valid() && backupTimer == Some(handle) && liveTimers == {handle}
      ensures entry == old(entry) && lastBackupTime == old(lastBackupTime)
    {
      StopAutoBackup();
      backupTimer := Some(handle);
      liveTimers := liveTimers + {handle};
    }

    /** One tick of the auto-backup interval: save the current tabs when there are any. */
    method AutoBackupTick(tabs: seq<Tab>, now: int, writeOk: bool)
      requires Valid()
      modifies this
      ensures Valid() && backupTimer == old(backupTimer)
      ensures tabs != [] && writeOk ==> entry == Parsed(BackupOf(tabs, now)) && lastBackupTime == now
      ensures tabs == [] || !writeOk ==> entry == old(entry) && lastBackupTime == old(lastBackupTime)
    {
      if |tabs| > 0 {
        SaveTabsToLocalStorage(tabs, now, writeOk);
      }
    }

    /** `shouldBackup`: more than five seconds since the last save. */
    function ShouldBackup(now: int): (r: bool)
      reads this
      ensures r <==> lastBackupTime + MinGapMs < now
    {
      now - lastBackupTime > MinGapMs
    }

    /** `immediateBackup`: save a non-empty list at once. */
    method ImmediateBackup(tabs: seq<Tab>, now: int, writeOk: bool)
      requires Valid()
      modifies this
      ensures Valid() && backupTimer == old(backupTimer)
      ensures tabs != [] && writeOk ==> entry == Parsed(BackupOf(tabs, now)) && lastBackupTime == now
      ensures tabs == [] || !writeOk ==> entry == old(entry) && lastBackupTime == old(lastBackupTime)
    {
      if |tabs| > 0 {
        SaveTabsToLocalStorage(tabs, now, writeOk);
      }
    }
  }

  /** Right after a successful save, no further backup is due for five seconds. */
  method SaveThenShouldBackup(m: TabsBackupManager, tabs: seq<Tab>, now: int, later: int) returns (due: bool)
    requires m.Valid()
    modifies m
    ensures due <==> later > now + MinGapMs
  {
    m.SaveTabsToLocalStorage(tabs, now, true);
    due := m.ShouldBackup(later);
  }
}
