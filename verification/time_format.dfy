/**
 * Relative times ("3분 전") and the shared once-a-minute refresh timer
 * (gui/src/util/time.ts). The current time is a parameter, in milliseconds.
 */
module TimeFormat {
  import opened Wrappers
  import opened Strings
  import opened Lists

  const MinuteMs: int := 60000
  const HourMs: int := 3600000
  const DayMs: int := 86400000
  const WeekMs: int := 604800000

  /** The five answers: the count is the floored number of whole units elapsed. */
  datatype TimeAgo = JustNow | MinutesAgo(minutes: int) | HoursAgo(hours: int) | DaysAgo(days: int)
                   | LocaleDate(timestamp: Option<int>)

  /**
   * `formatTimeAgoFromTimestamp`: whole minutes, hours and days elapsed are
   * floored (`Math.floor`, which is Dafny's `/` for a positive divisor), and
   * the first bucket that fits wins.
   */
  function FormatTimeAgoFromTimestamp(timestamp: int, now: int): (r: TimeAgo)
    ensures r == JustNow <==> now - timestamp < MinuteMs
    ensures r.MinutesAgo? <==> MinuteMs <= now - timestamp < HourMs
    ensures r.HoursAgo? <==> HourMs <= now - timestamp < DayMs
    ensures r.DaysAgo? <==> DayMs <= now - timestamp < WeekMs
    ensures r.LocaleDate? <==> WeekMs <= now - timestamp
    ensures r.MinutesAgo? ==> 1 <= r.minutes < 60 && r.minutes * MinuteMs <= now - timestamp < (r.minutes + 1) * MinuteMs
    ensures r.HoursAgo? ==> 1 <= r.hours < 24 && r.hours * HourMs <= now - timestamp < (r.hours + 1) * HourMs
    ensures r.DaysAgo? ==> 1 <= r.days < 7 && r.days * DayMs <= now - timestamp < (r.days + 1) * DayMs
    ensures r.LocaleDate? ==> r.timestamp == Some(timestamp)
  {
    var diffInMs := now - timestamp;
    var diffInMinutes := diffInMs / MinuteMs;
    var diffInHours := diffInMs / HourMs;
    var diffInDays := diffInMs / DayMs;
    if diffInMinutes < 1 then JustNow
    else if diffInMinutes < 60 then MinutesAgo(diffInMinutes)
    else if diffInHours < 24 then HoursAgo(diffInHours)
    else if diffInDays < 7 then DaysAgo(diffInDays)
    else LocaleDate(Some(timestamp))
  }

  /** `formatTimeAgo`: the same on a decimal string; an unreadable one is `NaN` and falls through to the date. */
  function FormatTimeAgo(dateString: string, now: int): (r: TimeAgo)
    ensures ParseInt(dateString).None? ==> r == LocaleDate(None)
    ensures ParseInt(dateString).Some? ==> r == FormatTimeAgoFromTimestamp(ParseInt(dateString).value, now)
  {
    match ParseInt(dateString)
    case None => LocaleDate(None)
    case Some(t) => FormatTimeAgoFromTimestamp(t, now)
  }

  /** A timestamp written out in decimal reads the same as the number itself. */
  lemma FormatTimeAgoOfDecimal(timestamp: int, now: int)
    ensures FormatTimeAgo(IntToString(timestamp), now) == FormatTimeAgoFromTimestamp(timestamp, now)
  {
    IntToStringRoundTrip(timestamp);
  }

  /** How recent an answer is: 0 for "방금 전" up to 4 for a date. */
  function Recency(t: TimeAgo): (k: nat)
    ensures k <= 4
  {
    match t
    case JustNow => 0
    case MinutesAgo(_) => 1
    case HoursAgo(_) => 2
    case DaysAgo(_) => 3
    case LocaleDate(_) => 4
  }

  /** As time passes an item never moves to a more recent bucket, and within a bucket its count never drops. */
  lemma FormatTimeAgoMonotone(timestamp: int, now: int, later: int)
    requires now <= later
    ensures Recency(FormatTimeAgoFromTimestamp(timestamp, now)) <= Recency(FormatTimeAgoFromTimestamp(timestamp, later))
    ensures var a, b := FormatTimeAgoFromTimestamp(timestamp, now), FormatTimeAgoFromTimestamp(timestamp, later);
      (a.MinutesAgo? && b.MinutesAgo? ==> a.minutes <= b.minutes)
      && (a.HoursAgo? && b.HoursAgo? ==> a.hours <= b.hours)
      && (a.DaysAgo? && b.DaysAgo? ==> a.days <= b.days)
  {
  }

  /** The text shown, for every answer but the locale date. */
  function Label(t: TimeAgo): (s: Option<string>)
    ensures s.None? <==> t.LocaleDate?
    ensures t == JustNow ==> s == Some("방금 전")
    ensures t.MinutesAgo? ==> s == Some(IntToString(t.minutes) + "분 전")
    ensures t.HoursAgo? ==> s == Some(IntToString(t.hours) + "시간 전")
    ensures t.DaysAgo? ==> s == Some(IntToString(t.days) + "일 전")
  {
    match t
    case JustNow => Some("방금 전")
    case MinutesAgo(m) => Some(IntToString(m) + "분 전")
    case HoursAgo(h) => Some(IntToString(h) + "시간 전")
    case DaysAgo(d) => Some(IntToString(d) + "일 전")
    case LocaleDate(_) => None
  }

  /** A subscriber, by identity. */
  type CallbackId = nat

  /**
   * `TimeUpdateManager`: the subscribers, in the order a JavaScript `Set`
   * keeps them, the running interval timer (held as the period it was
   * started with), and the period for the next start.
   */
  class TimeUpdateManager {
    var updateCallbacks: seq<CallbackId>
    var updateTimer: Option<int>
    var updateInterval: int

    /** The timer runs exactly while someone is subscribed; each subscriber appears once. */
    predicate Valid()
      reads this
    {
      (updateTimer.Some? <==> updateCallbacks != [])
      && Distinct(updateCallbacks)
    }

    constructor()
      ensures Valid() && updateCallbacks == [] && updateTimer.None? && updateInterval == MinuteMs
    {
      updateCallbacks := [];
      updateTimer := None;
      updateInterval := MinuteMs;
    }

    /** `startTimer`: does nothing while a timer runs. */
    method StartTimer()
      modifies this
      ensures updateTimer == (if old(updateTimer).Some? then old(updateTimer) else Some(updateInterval))
      ensures updateCallbacks == old(updateCallbacks) && updateInterval == old(updateInterval)
    {
      if updateTimer.Some? {
        return;
      }
      updateTimer := Some(updateInterval);
    }

    /** `stopTimer`: the timer is cleared. */
    method StopTimer()
      modifies this
      ensures updateTimer.None?
      ensures updateCallbacks == old(updateCallbacks) && updateInterval == old(updateInterval)
    {
      if updateTimer.Some? {
        updateTimer := None;
      }
    }

    /** `subscribe`: add the callback (a `Set` keeps one copy) and make sure the timer runs. */
    method Subscribe(callback: CallbackId)
      requires Valid()
      modifies this
      ensures Valid()
      ensures updateCallbacks == if callback in old(updateCallbacks) then old(updateCallbacks) else old(updateCallbacks) + [callback]
      ensures updateTimer.Some? && (old(updateTimer).Some? ==> updateTimer == old(updateTimer))
      ensures updateInterval == old(updateInterval)
    {
      if callback !in updateCallbacks {
        updateCallbacks := updateCallbacks + [callback];
      }
      StartTimer();
    }

    /** The function `subscribe` returns: remove the callback, and stop the timer once nobody is left. */
    method Unsubscribe(callback: CallbackId)
      requires Valid()
      modifies this
      ensures Valid()
      ensures callback !in updateCallbacks
      ensures updateCallbacks == Without(old(updateCallbacks), callback)
      ensures forall c :: c in updateCallbacks <==> c in old(updateCallbacks) && c != callback
      ensures updateCallbacks != [] ==> updateTimer == old(updateTimer)
      ensures updateInterval == old(updateInterval)
    {
      WithoutKeepsDistinct(updateCallbacks, callback);
      updateCallbacks := Without(updateCallbacks, callback);
      if |updateCallbacks| == 0 {
        StopTimer();
      }
    }

    /**
     * `notifyCallbacks`: every subscriber is called, in order, whichever of
     * them throw; each throw only produces a warning.
     */
    method NotifyCallbacks(throws: CallbackId -> bool) returns (called: seq<CallbackId>, warnings: nat)
      ensures called == updateCallbacks
      ensures warnings == |Filter(updateCallbacks, throws)|
    {
      called, warnings := [], 0;
      var i := 0;
      while i < |updateCallbacks|
        invariant 0 <= i <= |updateCallbacks|
        invariant called == updateCallbacks[..i]
        invariant warnings == |Filter(updateCallbacks[..i], throws)|
      {
        var callback := updateCallbacks[i];
        called := called + [callback];
        assert updateCallbacks[..i + 1] == updateCallbacks[..i] + [callback];
        FilterAppend(updateCallbacks[..i], callback, throws);
        if throws(callback) {
          warnings := warnings + 1;
        }
        i := i + 1;
      }
      assert updateCallbacks[..i] == updateCallbacks;
    }

    /** `setUpdateInterval`: store the period; a running timer is restarted with it, a stopped one stays stopped. */
    method SetUpdateInterval(interval: int)
      requires Valid()
      modifies this
      ensures Valid()
      ensures updateInterval == interval && updateCallbacks == old(updateCallbacks)
      ensures updateTimer == (if old(updateTimer).Some? then Some(interval) else None)
    {
      updateInterval := interval;
      if updateTimer.Some? {
        StopTimer();
        StartTimer();
      }
    }
  }

  /** Subscribers are distinct. */
  predicate Distinct(callbacks: seq<CallbackId>) {
    forall i, j | 0 <= i < j < |callbacks| :: callbacks[i] != callbacks[j]
  }

  function OtherCallback(c: CallbackId): CallbackId -> bool {
    (x: CallbackId) => x != c
  }

  /** `Set.delete`: the list without that element, the rest in order. */
  function Without(callbacks: seq<CallbackId>, c: CallbackId): (r: seq<CallbackId>)
    ensures forall x :: x in r <==> x in callbacks && x != c
    ensures |r| <= |callbacks|
    ensures r == Filter(callbacks, OtherCallback(c))
    decreases |callbacks|
  {
    if callbacks == [] then []
    else
      var rest := Without(callbacks[..|callbacks| - 1], c);
      var last := callbacks[|callbacks| - 1];
      assert forall x | x in callbacks :: x in callbacks[..|callbacks| - 1] || x == last;
      assert callbacks[..|callbacks| - 1] + [last] == callbacks;
      FilterAppend(callbacks[..|callbacks| - 1], last, OtherCallback(c));
      if last == c then rest
      else rest + [last]
  }

  /** Deleting from distinct subscribers leaves them distinct. */
  lemma {:induction false} WithoutKeepsDistinct(callbacks: seq<CallbackId>, c: CallbackId)
    requires Distinct(callbacks)
    ensures Distinct(Without(callbacks, c))
    decreases |callbacks|
  {
    if callbacks != [] {
      var init := callbacks[..|callbacks| - 1];
      var last := callbacks[|callbacks| - 1];
      assert Distinct(init);
      WithoutKeepsDistinct(init, c);
      assert last !in init;
      var r := Without(callbacks, c);
      if last != c {
        assert r == Without(init, c) + [last];
      }
    }
  }

  /** Subscribing and then unsubscribing a new callback leaves the subscribers and the timer as they were. */
  method SubscribeThenUnsubscribe(m: TimeUpdateManager, callback: CallbackId)
    requires m.Valid() && callback !in m.updateCallbacks
    modifies m
    ensures m.Valid()
    ensures m.updateCallbacks == old(m.updateCallbacks)
    ensures forall c :: c in m.updateCallbacks <==> c in old(m.updateCallbacks)
    ensures (m.updateTimer.Some? <==> old(m.updateTimer).Some?) && m.updateInterval == old(m.updateInterval)
  {
    ghost var before := m.updateCallbacks;
    m.Subscribe(callback);
    ghost var mid := m.updateCallbacks;
    m.Unsubscribe(callback);
    assert m.updateCallbacks == before by {
      FilterAppend(before, callback, OtherCallback(callback));
      FilterAll(before, OtherCallback(callback));
    }
    if before != [] {
      assert before[0] in m.updateCallbacks;
    }
    if m.updateCallbacks != [] {
      assert m.updateCallbacks[0] in mid;
      assert m.updateCallbacks[0] in before;
    }
  }
}
