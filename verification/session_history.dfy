/**
 * The session history lists (gui/src/components/chat/HistoryDropdown.tsx and
 * gui/src/components/chat/HistorySidebar.tsx, which share the grouping and the
 * search filter): sessions are filtered by a fuzzy title search, grouped into
 * four date buckets with the newest first, and edited or deleted from the list.
 *
 * Local calendar days are a parameter: `dayStart(t)` is the local midnight of
 * timestamp `t`, and `today` is `dayStart(now)`.
 */
module SessionHistory {
  import opened Wrappers
  import opened Strings
  import opened Lists
  import opened UiKeys

  datatype SessionMetadata = SessionMetadata(sessionId: string, title: string, dateCreated: string)

  /** The four date groups, in the order the list shows them. */
  datatype Bucket = Today | Yesterday | LastWeek | Older

  datatype Group = Group(bucket: Bucket, sessions: seq<SessionMetadata>)

  /** A `dateCreated` as it may arrive: a number or a string. */
  datatype DateValue = NumberDate(n: int) | StringDate(s: string)

  const DayMs: int := 24 * 60 * 60 * 1000

  /** `parseTimestamp`: numbers as they are, strings parsed, and "now" for what does not parse. */
  function ParseTimestamp(d: DateValue, now: int): (t: int)
    ensures d.NumberDate? ==> t == d.n
    ensures d.StringDate? && ParseInt(d.s).Some? ==> t == ParseInt(d.s).value
    ensures d.StringDate? && ParseInt(d.s).None? ==> t == now
  {
    match d
    case NumberDate(n) => n
    case StringDate(s) => ParseInt(s).GetOr(now)
  }

  /** A stored timestamp written back as digits is read back unchanged. */
  lemma ParseTimestampOfDigits(n: int, now: int)
    ensures ParseTimestamp(StringDate(IntToString(n)), now) == n
  {
    IntToStringRoundTrip(n);
  }

  /** `parseInt(session.dateCreated)`: None stands for NaN. */
  function CreatedAt(s: SessionMetadata): Option<int> {
    ParseInt(s.dateCreated)
  }

  // ---------------------------------------------------------------- date buckets

  /**
   * The bucket of a creation time: today's date, yesterday's date, on or
   * after midnight seven days ago, or older. NaN fails every comparison and
   * falls through to "older".
   */
  function BucketOf(created: Option<int>, today: int, dayStart: int -> int): (b: Bucket)
    ensures b == Today <==> created.Some? && dayStart(created.value) == today
    ensures b == Yesterday <==> created.Some? && dayStart(created.value) != today && dayStart(created.value) == today - DayMs
    ensures b == LastWeek ==> created.Some? && created.value >= today - 7 * DayMs
    ensures b == Older ==> created.None? || created.value < today - 7 * DayMs
  {
    if created.None? then Older
    else if dayStart(created.value) == today then Today
    else if dayStart(created.value) == today - DayMs then Yesterday
    else if created.value >= today - 7 * DayMs then LastWeek
    else Older
  }

  /** The sessions of bucket `b`, in the order they were pushed. */
  function BucketMembers(sessions: seq<SessionMetadata>, b: Bucket, key: DateKey, today: int, dayStart: int -> int): (r: seq<SessionMetadata>)
    ensures |r| <= |sessions|
    decreases |sessions|
  {
    if sessions == [] then []
    else
      var last := sessions[|sessions| - 1];
      BucketMembers(sessions[..|sessions| - 1], b, key, today, dayStart)
        + (if BucketOf(key(last), today, dayStart) == b then [last] else [])
  }

  /** A bucket holds only sessions of the list that belong in it. */
  lemma {:induction false} BucketMembersBelong(sessions: seq<SessionMetadata>, b: Bucket, key: DateKey, today: int, dayStart: int -> int)
    ensures forall x | x in BucketMembers(sessions, b, key, today, dayStart) :: x in sessions && BucketOf(key(x), today, dayStart) == b
    decreases |sessions|
  {
    if sessions != [] {
      var front := sessions[..|sessions| - 1];
      BucketMembersBelong(front, b, key, today, dayStart);
      forall x | x in front
        ensures x in sessions
      {
        var k :| 0 <= k < |front| && front[k] == x;
        assert sessions[k] == x;
      }
    }
  }

  /** Every session lands in exactly one bucket: the four buckets together are as long as the list. */
  lemma {:induction false} BucketsPartition(sessions: seq<SessionMetadata>, key: DateKey, today: int, dayStart: int -> int)
    ensures |BucketMembers(sessions, Today, key, today, dayStart)| + |BucketMembers(sessions, Yesterday, key, today, dayStart)|
          + |BucketMembers(sessions, LastWeek, key, today, dayStart)| + |BucketMembers(sessions, Older, key, today, dayStart)|
          == |sessions|
    decreases |sessions|
  {
    if sessions != [] {
      BucketsPartition(sessions[..|sessions| - 1], key, today, dayStart);
    }
  }

  function Rank(b: Bucket): nat {
    match b
    case Today => 0
    case Yesterday => 1
    case LastWeek => 2
    case Older => 3
  }

  // ---------------------------------------------------------------- newest first

  /**
   * The sort key of a session is a parameter of the sort and its lemmas; the
   * list uses `CreatedAt`, where None stands for NaN.
   */
  type DateKey = SessionMetadata -> Option<int>

  /** `a` sorts before `b`: both keys are numbers and `a`'s is larger (`key(b) - key(a) < 0`). */
  predicate Newer(a: SessionMetadata, b: SessionMetadata, key: DateKey) {
    key(a).Some? && key(b).Some? && key(a).value > key(b).value
  }

  predicate AllDated(ss: seq<SessionMetadata>, key: DateKey) {
    forall s | s in ss :: key(s).Some?
  }

  /** Newest first: no session is followed by a newer one. */
  predicate NewestFirst(ss: seq<SessionMetadata>, key: DateKey) {
    forall i, j | 0 <= i < j < |ss| :: !Newer(ss[j], ss[i], key)
  }

  /**
   * Insert `x`, which came first in the input, past every session that is
   * strictly newer than it: it stays ahead of its equals (a stable sort).
   */
  function Insert(x: SessionMetadata, sorted: seq<SessionMetadata>, key: DateKey): (r: seq<SessionMetadata>)
    ensures multiset(r) == multiset(sorted) + multiset{x}
  {
    if sorted == [] then [x]
    else if !Newer(sorted[0], x, key) then [x] + sorted
    else
      assert sorted == [sorted[0]] + sorted[1..];
      [sorted[0]] + Insert(x, sorted[1..], key)
  }

  /** A newest-first list stays so with a head no later element is newer than. */
  lemma NewestFirstCons(h: SessionMetadata, t: seq<SessionMetadata>, key: DateKey)
    requires NewestFirst(t, key)
    requires forall k | 0 <= k < |t| :: !Newer(t[k], h, key)
    ensures NewestFirst([h] + t, key)
  {
    var r := [h] + t;
    forall i, j | 0 <= i < j < |r|
      ensures !Newer(r[j], r[i], key)
    {
      assert r[j] == t[j - 1];
      if i > 0 {
        assert r[i] == t[i - 1];
      }
    }
  }

  lemma TailNewestFirst(sorted: seq<SessionMetadata>, key: DateKey)
    requires sorted != [] && AllDated(sorted, key) && NewestFirst(sorted, key)
    ensures AllDated(sorted[1..], key) && NewestFirst(sorted[1..], key)
    ensures forall k | 0 <= k < |sorted[1..]| :: !Newer(sorted[1..][k], sorted[0], key)
  {
    var tail := sorted[1..];
    forall y | y in tail
      ensures key(y).Some?
    {
      assert y in sorted;
    }
    forall i, j | 0 <= i < j < |tail|
      ensures !Newer(tail[j], tail[i], key)
    {
      assert tail[j] == sorted[j + 1] && tail[i] == sorted[i + 1];
    }
    forall k | 0 <= k < |tail|
      ensures !Newer(tail[k], sorted[0], key)
    {
      assert tail[k] == sorted[k + 1];
    }
  }

  /** Inserting a dated session into a dated newest-first list keeps it newest first. */
  lemma {:induction false} InsertNewestFirst(x: SessionMetadata, sorted: seq<SessionMetadata>, key: DateKey)
    requires AllDated(sorted, key) && key(x).Some? && NewestFirst(sorted, key)
    ensures NewestFirst(Insert(x, sorted, key), key)
    decreases |sorted|
  {
    if sorted == [] {
    } else if !Newer(sorted[0], x, key) {
      forall k | 0 <= k < |sorted|
        ensures !Newer(sorted[k], x, key)
      {
        assert sorted[k] in sorted && sorted[0] in sorted;
        if k > 0 {
          assert !Newer(sorted[k], sorted[0], key);
        }
      }
      NewestFirstCons(x, sorted, key);
    } else {
      var tail := sorted[1..];
      TailNewestFirst(sorted, key);
      InsertNewestFirst(x, tail, key);
      var rest := Insert(x, tail, key);
      forall k | 0 <= k < |rest|
        ensures !Newer(rest[k], sorted[0], key)
      {
        assert rest[k] in multiset(rest);
        if rest[k] != x {
          assert rest[k] in multiset(tail);
          var m :| 0 <= m < |tail| && tail[m] == rest[k];
        }
      }
      NewestFirstCons(sorted[0], rest, key);
    }
  }

  /**
   * `sort((a, b) => key(b) - key(a))` as a stable insertion sort: every
   * session kept, newest first whenever every key is a number, and
   * sessions with the same key (or none) in their input order.
   */
  function SortBy(ss: seq<SessionMetadata>, key: DateKey): (r: seq<SessionMetadata>)
    ensures multiset(r) == multiset(ss)
    ensures |r| == |ss|
  {
    if ss == [] then []
    else
      assert ss == [ss[0]] + ss[1..];
      var r := Insert(ss[0], SortBy(ss[1..], key), key);
      assert |r| == |multiset(r)|;
      r
  }

  /** When every key is a number, the sort puts the sessions newest first. */
  lemma {:induction false} SortIsNewestFirst(ss: seq<SessionMetadata>, key: DateKey)
    requires AllDated(ss, key)
    ensures NewestFirst(SortBy(ss, key), key)
    decreases |ss|
  {
    if ss != [] {
      assert AllDated(ss[1..], key) by {
        forall y | y in ss[1..]
          ensures key(y).Some?
        {
          assert y in ss;
        }
      }
      SortIsNewestFirst(ss[1..], key);
      var rest := SortBy(ss[1..], key);
      assert AllDated(rest, key) by {
        forall y | y in rest
          ensures key(y).Some?
        {
          assert y in multiset(rest);
          assert y in multiset(ss[1..]);
        }
      }
      InsertNewestFirst(ss[0], rest, key);
    }
  }

  /** The sessions whose key is `k` (a number, or None for NaN). */
  function WithKey(key: DateKey, k: Option<int>): SessionMetadata -> bool {
    (s: SessionMetadata) => key(s) == k
  }

  /** Inserting `x` only passes sessions with another key, so it lands ahead of every session with its own key. */
  lemma {:induction false} InsertKeepsTies(x: SessionMetadata, sorted: seq<SessionMetadata>, key: DateKey, k: Option<int>)
    ensures Filter(Insert(x, sorted, key), WithKey(key, k))
      == (if key(x) == k then [x] else []) + Filter(sorted, WithKey(key, k))
    decreases |sorted|
  {
    var keep := WithKey(key, k);
    if sorted == [] {
      FilterCons(x, [], keep);
    } else if Newer(sorted[0], x, key) {
      InsertKeepsTies(x, sorted[1..], key, k);
      var rest := Insert(x, sorted[1..], key);
      assert Insert(x, sorted, key) == [sorted[0]] + rest;
      FilterCons(sorted[0], rest, keep);
      FilterCons(sorted[0], sorted[1..], keep);
      assert [sorted[0]] + sorted[1..] == sorted;
      // x passed sorted[0], so they do not share a key: at most one of them is kept
      assert key(sorted[0]) != key(x);
    } else {
      FilterCons(x, sorted, keep);
    }
  }

  /** Stability: the sessions sharing a key, or all lacking one, keep their input order. */
  lemma {:induction false} SortKeepsTies(ss: seq<SessionMetadata>, key: DateKey, k: Option<int>)
    ensures Filter(SortBy(ss, key), WithKey(key, k)) == Filter(ss, WithKey(key, k))
    decreases |ss|
  {
    if ss != [] {
      SortKeepsTies(ss[1..], key, k);
      InsertKeepsTies(ss[0], SortBy(ss[1..], key), key, k);
    }
  }

  /** A group whose sessions all have the same key, or none has one, comes out exactly as it went in. */
  lemma SortOfTiesIsIdentity(ss: seq<SessionMetadata>, key: DateKey, k: Option<int>)
    requires forall s | s in ss :: key(s) == k
    ensures SortBy(ss, key) == ss
  {
    SortKeepsTies(ss, key, k);
    FilterAll(ss, WithKey(key, k));
    var r := SortBy(ss, key);
    forall s | s in r
      ensures WithKey(key, k)(s)
    {
      assert s in multiset(r);
      assert s in multiset(ss);
    }
    FilterAll(r, WithKey(key, k));
  }

  /** Pushing session `i` extends bucket `b` iff the session belongs there. */
  lemma PushOne(sessions: seq<SessionMetadata>, i: nat, b: Bucket, key: DateKey, today: int, dayStart: int -> int)
    requires i < |sessions|
    ensures BucketMembers(sessions[..i + 1], b, key, today, dayStart)
      == BucketMembers(sessions[..i], b, key, today, dayStart)
        + (if BucketOf(key(sessions[i]), today, dayStart) == b then [sessions[i]] else [])
  {
    assert sessions[..i + 1][..i] == sessions[..i];
  }

  /** The bucketing pass: each session pushed into its bucket, in list order. */
  method PushIntoBuckets(sessions: seq<SessionMetadata>, key: DateKey, today: int, dayStart: int -> int)
    returns (todays: seq<SessionMetadata>, yesterdays: seq<SessionMetadata>,
             lastWeeks: seq<SessionMetadata>, olders: seq<SessionMetadata>)
    ensures todays == BucketMembers(sessions, Today, key, today, dayStart)
    ensures yesterdays == BucketMembers(sessions, Yesterday, key, today, dayStart)
    ensures lastWeeks == BucketMembers(sessions, LastWeek, key, today, dayStart)
    ensures olders == BucketMembers(sessions, Older, key, today, dayStart)
  {
    todays, yesterdays, lastWeeks, olders := [], [], [], [];
    for i := 0 to |sessions|
      invariant todays == BucketMembers(sessions[..i], Today, key, today, dayStart)
      invariant yesterdays == BucketMembers(sessions[..i], Yesterday, key, today, dayStart)
      invariant lastWeeks == BucketMembers(sessions[..i], LastWeek, key, today, dayStart)
      invariant olders == BucketMembers(sessions[..i], Older, key, today, dayStart)
    {
      var s := sessions[i];
      PushOne(sessions, i, Today, key, today, dayStart);
      PushOne(sessions, i, Yesterday, key, today, dayStart);
      PushOne(sessions, i, LastWeek, key, today, dayStart);
      PushOne(sessions, i, Older, key, today, dayStart);
      match BucketOf(key(s), today, dayStart)
      case Today => todays := todays + [s];
      case Yesterday => yesterdays := yesterdays + [s];
      case LastWeek => lastWeeks := lastWeeks + [s];
      case Older => olders := olders + [s];
    }
    assert sessions[..|sessions|] == sessions;
  }

  /** The bucket the list shows in position `r`. */
  function BucketAt(r: nat): (b: Bucket)
    requires r < 4
    ensures Rank(b) == r
  {
    if r == 0 then Today else if r == 1 then Yesterday else if r == 2 then LastWeek else Older
  }

  /** The group of bucket `b`, when it has sessions, sorted newest first. */
  function GroupIfAny(b: Bucket, members: seq<SessionMetadata>, key: DateKey): (gs: seq<Group>)
    ensures |gs| <= 1
    ensures gs != [] <==> members != []
    ensures gs != [] ==> gs[0] == Group(b, SortBy(members, key))
  {
    if members == [] then [] else [Group(b, SortBy(members, key))]
  }

  /** The groups of the first `n` buckets, empty ones dropped. */
  function GroupsBelow(sessions: seq<SessionMetadata>, n: nat, key: DateKey, today: int, dayStart: int -> int): seq<Group>
    requires n <= 4
  {
    if n == 0 then []
    else
      var b := BucketAt(n - 1);
      GroupsBelow(sessions, n - 1, key, today, dayStart) + GroupIfAny(b, BucketMembers(sessions, b, key, today, dayStart), key)
  }

  /** The grouped list: today, yesterday, last week, older. */
  function DateGroups(sessions: seq<SessionMetadata>, key: DateKey, today: int, dayStart: int -> int): seq<Group> {
    GroupsBelow(sessions, 4, key, today, dayStart)
  }

  /** How many sessions the groups hold. */
  function GroupedCount(gs: seq<Group>): nat {
    if gs == [] then 0 else |gs[0].sessions| + GroupedCount(gs[1..])
  }

  lemma {:induction false} GroupedCountAppend(gs: seq<Group>, hs: seq<Group>)
    ensures GroupedCount(gs + hs) == GroupedCount(gs) + GroupedCount(hs)
    decreases |gs|
  {
    if gs == [] {
      assert gs + hs == hs;
    } else {
      assert (gs + hs)[0] == gs[0];
      assert (gs + hs)[1..] == gs[1..] + hs;
      GroupedCountAppend(gs[1..], hs);
    }
  }

  /** No group is empty, every bucket comes before position `n`, and the buckets come in the list's order. */
  predicate OrderedBelow(gs: seq<Group>, n: nat) {
    && (forall k | 0 <= k < |gs| :: gs[k].sessions != [] && Rank(gs[k].bucket) < n)
    && (forall k, m | 0 <= k < m < |gs| :: Rank(gs[k].bucket) < Rank(gs[m].bucket))
  }

  /** Each group holds exactly its bucket's sessions, sorted newest first. */
  predicate HoldsOwnBucket(gs: seq<Group>, sessions: seq<SessionMetadata>, key: DateKey, today: int, dayStart: int -> int) {
    forall k | 0 <= k < |gs| :: gs[k].sessions == SortBy(BucketMembers(sessions, gs[k].bucket, key, today, dayStart), key)
  }

  predicate HasGroup(gs: seq<Group>, b: Bucket) {
    exists k | 0 <= k < |gs| :: gs[k].bucket == b
  }

  /** A bucket before position `n` has a group iff it has a session. */
  predicate CoversBelow(gs: seq<Group>, sessions: seq<SessionMetadata>, n: nat, key: DateKey, today: int, dayStart: int -> int)
    requires n <= 4
  {
    forall r: nat | r < n :: BucketMembers(sessions, BucketAt(r), key, today, dayStart) != [] <==> HasGroup(gs, BucketAt(r))
  }

  lemma GroupIfAnyShape(b: Bucket, members: seq<SessionMetadata>, key: DateKey)
    ensures var last := GroupIfAny(b, members, key);
      forall k | 0 <= k < |last| :: last[k] == Group(b, SortBy(members, key)) && last[k].sessions != []
  {
  }

  lemma OrderedStep(prev: seq<Group>, b: Bucket, members: seq<SessionMetadata>, key: DateKey)
    requires OrderedBelow(prev, Rank(b))
    ensures OrderedBelow(prev + GroupIfAny(b, members, key), Rank(b) + 1)
  {
    GroupIfAnyShape(b, members, key);
    var gs := prev + GroupIfAny(b, members, key);
    forall k, m | 0 <= k < m < |gs|
      ensures Rank(gs[k].bucket) < Rank(gs[m].bucket)
    {
      assert gs[k] == prev[k];
    }
  }

  lemma HoldsStep(prev: seq<Group>, b: Bucket, sessions: seq<SessionMetadata>, key: DateKey, today: int, dayStart: int -> int)
    requires HoldsOwnBucket(prev, sessions, key, today, dayStart)
    ensures HoldsOwnBucket(prev + GroupIfAny(b, BucketMembers(sessions, b, key, today, dayStart), key), sessions, key, today, dayStart)
  {
    GroupIfAnyShape(b, BucketMembers(sessions, b, key, today, dayStart), key);
  }

  lemma HasGroupAppend(prev: seq<Group>, last: seq<Group>, b: Bucket)
    ensures HasGroup(prev + last, b) <==> HasGroup(prev, b) || HasGroup(last, b)
  {
    var gs := prev + last;
    if HasGroup(gs, b) {
      var k :| 0 <= k < |gs| && gs[k].bucket == b;
      if k < |prev| {
        assert prev[k].bucket == b;
      } else {
        assert last[k - |prev|].bucket == b;
      }
    }
    if HasGroup(prev, b) {
      var k :| 0 <= k < |prev| && prev[k].bucket == b;
      assert gs[k].bucket == b;
    }
    if HasGroup(last, b) {
      var k :| 0 <= k < |last| && last[k].bucket == b;
      assert gs[|prev| + k].bucket == b;
    }
  }

  lemma CoversStep(prev: seq<Group>, n: nat, sessions: seq<SessionMetadata>, key: DateKey, today: int, dayStart: int -> int)
    requires n < 4
    requires CoversBelow(prev, sessions, n, key, today, dayStart)
    requires OrderedBelow(prev, n)
    ensures CoversBelow(prev + GroupIfAny(BucketAt(n), BucketMembers(sessions, BucketAt(n), key, today, dayStart), key), sessions, n + 1, key, today, dayStart)
  {
    var b := BucketAt(n);
    var members := BucketMembers(sessions, b, key, today, dayStart);
    var last := GroupIfAny(b, members, key);
    GroupIfAnyShape(b, members, key);
    forall r: nat | r < n + 1
      ensures BucketMembers(sessions, BucketAt(r), key, today, dayStart) != [] <==> HasGroup(prev + last, BucketAt(r))
    {
      HasGroupAppend(prev, last, BucketAt(r));
      if r < n {
        assert !HasGroup(last, BucketAt(r));
      } else {
        assert !HasGroup(prev, b);
        assert HasGroup(last, b) <==> members != [] by {
          if members != [] {
            assert last[0].bucket == b;
          }
        }
      }
    }
  }

  /**
   * The groups of the first `n` buckets: none is empty, their buckets come
   * in the list's order, each holds exactly its bucket's sessions sorted,
   * and a bucket has a group iff it has a session.
   */
  lemma {:induction false} GroupsBelowShape(sessions: seq<SessionMetadata>, n: nat, key: DateKey, today: int, dayStart: int -> int)
    requires n <= 4
    ensures OrderedBelow(GroupsBelow(sessions, n, key, today, dayStart), n)
    ensures HoldsOwnBucket(GroupsBelow(sessions, n, key, today, dayStart), sessions, key, today, dayStart)
    ensures CoversBelow(GroupsBelow(sessions, n, key, today, dayStart), sessions, n, key, today, dayStart)
    decreases n
  {
    if n > 0 {
      GroupsBelowShape(sessions, n - 1, key, today, dayStart);
      var prev := GroupsBelow(sessions, n - 1, key, today, dayStart);
      var b := BucketAt(n - 1);
      OrderedStep(prev, b, BucketMembers(sessions, b, key, today, dayStart), key);
      HoldsStep(prev, b, sessions, key, today, dayStart);
      CoversStep(prev, n - 1, sessions, key, today, dayStart);
    }
  }

  lemma CoversEveryBucket(gs: seq<Group>, sessions: seq<SessionMetadata>, key: DateKey, today: int, dayStart: int -> int)
    requires CoversBelow(gs, sessions, 4, key, today, dayStart)
    ensures forall b :: BucketMembers(sessions, b, key, today, dayStart) != [] <==> HasGroup(gs, b)
  {
    forall b
      ensures BucketMembers(sessions, b, key, today, dayStart) != [] <==> HasGroup(gs, b)
    {
      assert BucketAt(Rank(b)) == b;
    }
  }

  /**
   * The grouped list: no empty group, today before yesterday before last
   * week before older, each group exactly its bucket's sessions sorted,
   * and a group for every bucket that has a session.
   */
  lemma DateGroupsShape(sessions: seq<SessionMetadata>, key: DateKey, today: int, dayStart: int -> int)
    ensures var gs := DateGroups(sessions, key, today, dayStart);
      && OrderedBelow(gs, 4)
      && HoldsOwnBucket(gs, sessions, key, today, dayStart)
      && forall b :: BucketMembers(sessions, b, key, today, dayStart) != [] <==> HasGroup(gs, b)
  {
    GroupsBelowShape(sessions, 4, key, today, dayStart);
    var gs := DateGroups(sessions, key, today, dayStart);
    CoversEveryBucket(gs, sessions, key, today, dayStart);
  }

  /** How many sessions the first `n` buckets hold. */
  function SizesBelow(sessions: seq<SessionMetadata>, n: nat, key: DateKey, today: int, dayStart: int -> int): nat
    requires n <= 4
  {
    if n == 0 then 0
    else SizesBelow(sessions, n - 1, key, today, dayStart) + |BucketMembers(sessions, BucketAt(n - 1), key, today, dayStart)|
  }

  lemma CountStep(prev: seq<Group>, b: Bucket, members: seq<SessionMetadata>, key: DateKey)
    ensures GroupedCount(prev + GroupIfAny(b, members, key)) == GroupedCount(prev) + |members|
  {
    GroupedCountAppend(prev, GroupIfAny(b, members, key));
    if members != [] {
      assert GroupIfAny(b, members, key)[1..] == [];
    }
  }

  /** The groups of the first `n` buckets hold every session of those buckets. */
  lemma {:induction false} GroupsBelowCount(sessions: seq<SessionMetadata>, n: nat, key: DateKey, today: int, dayStart: int -> int)
    requires n <= 4
    ensures GroupedCount(GroupsBelow(sessions, n, key, today, dayStart)) == SizesBelow(sessions, n, key, today, dayStart)
    decreases n
  {
    if n > 0 {
      GroupsBelowCount(sessions, n - 1, key, today, dayStart);
      var b := BucketAt(n - 1);
      CountStep(GroupsBelow(sessions, n - 1, key, today, dayStart), b, BucketMembers(sessions, b, key, today, dayStart), key);
    }
  }

  /** Every session is in the grouped list once: the groups hold as many sessions as the input. */
  lemma DateGroupsKeepEverySession(sessions: seq<SessionMetadata>, key: DateKey, today: int, dayStart: int -> int)
    ensures GroupedCount(DateGroups(sessions, key, today, dayStart)) == |sessions|
  {
    GroupsBelowCount(sessions, 4, key, today, dayStart);
    BucketsPartition(sessions, key, today, dayStart);
    assert SizesBelow(sessions, 1, key, today, dayStart) == |BucketMembers(sessions, Today, key, today, dayStart)|;
    assert SizesBelow(sessions, 2, key, today, dayStart)
      == SizesBelow(sessions, 1, key, today, dayStart) + |BucketMembers(sessions, Yesterday, key, today, dayStart)|;
    assert SizesBelow(sessions, 3, key, today, dayStart)
      == SizesBelow(sessions, 2, key, today, dayStart) + |BucketMembers(sessions, LastWeek, key, today, dayStart)|;
    assert SizesBelow(sessions, 4, key, today, dayStart)
      == SizesBelow(sessions, 3, key, today, dayStart) + |BucketMembers(sessions, Older, key, today, dayStart)|;
  }

  lemma GroupsBelowStep(sessions: seq<SessionMetadata>, r: nat, key: DateKey, today: int, dayStart: int -> int)
    requires r < 4
    ensures GroupsBelow(sessions, r + 1, key, today, dayStart)
      == GroupsBelow(sessions, r, key, today, dayStart)
        + GroupIfAny(BucketAt(r), BucketMembers(sessions, BucketAt(r), key, today, dayStart), key)
  {
  }

  /** One bucket of the final pass: an empty bucket is deleted, any other is sorted. */
  method DropOrSort(groups: seq<Group>, b: Bucket, members: seq<SessionMetadata>, key: DateKey) returns (r: seq<Group>)
    ensures r == groups + GroupIfAny(b, members, key)
  {
    r := groups;
    if members != [] {
      r := r + [Group(b, SortBy(members, key))];
    }
  }

  /** The grouping pass for any date key: bucket, then visit the buckets in order. */
  method GroupByKey(sessions: seq<SessionMetadata>, key: DateKey, today: int, dayStart: int -> int)
    returns (groups: seq<Group>)
    ensures groups == DateGroups(sessions, key, today, dayStart)
  {
    var todays, yesterdays, lastWeeks, olders := PushIntoBuckets(sessions, key, today, dayStart);
    var buckets := [todays, yesterdays, lastWeeks, olders];
    forall r: nat | r < 4
      ensures buckets[r] == BucketMembers(sessions, BucketAt(r), key, today, dayStart)
    {
      if r == 0 {
      } else if r == 1 {
      } else if r == 2 {
      } else {
      }
    }
    groups := [];
    for r := 0 to 4
      invariant groups == GroupsBelow(sessions, r, key, today, dayStart)
    {
      GroupsBelowStep(sessions, r, key, today, dayStart);
      groups := DropOrSort(groups, BucketAt(r), buckets[r], key);
    }
  }

  /**
   * `groupSessionsByDate`: sessions pushed into their bucket in list order,
   * then the buckets visited in order, empty ones dropped and the others
   * sorted newest first, all by `parseInt(dateCreated)`.
   */
  method GroupSessionsByDate(sessions: seq<SessionMetadata>, today: int, dayStart: int -> int)
    returns (groups: seq<Group>)
    ensures groups == DateGroups(sessions, CreatedAt, today, dayStart)
  {
    groups := GroupByKey(sessions, CreatedAt, today, dayStart);
  }

  // ---------------------------------------------------------------- search

  /** The title test: the query is a block of the lower-cased title, or a subsequence of it. */
  function MatchesQuery(query: string): SessionMetadata -> bool {
    (s: SessionMetadata) => Includes(ToLower(s.title), query) || IsSubsequence(query, ToLower(s.title))
  }

  /** The `includes` test adds nothing: a session matches iff the query is a subsequence of its title. */
  lemma MatchesIffSubsequence(query: string, s: SessionMetadata)
    ensures MatchesQuery(query)(s) <==> IsSubsequence(query, ToLower(s.title))
  {
    if Includes(ToLower(s.title), query) {
      IncludesIsSubsequence(ToLower(s.title), query);
    }
  }

  /** The fuzzy match: walk the title once, advancing in the query on every equal character. */
  method FuzzyMatch(query: string, title: string) returns (r: bool)
    ensures r <==> IsSubsequence(query, title)
  {
    var titleIndex := 0;
    var queryIndex := 0;
    while titleIndex < |title| && queryIndex < |query|
      invariant 0 <= titleIndex <= |title| && 0 <= queryIndex <= |query|
      invariant IsSubsequence(query[queryIndex..], title[titleIndex..]) == IsSubsequence(query, title)
      decreases |title| - titleIndex
    {
      assert title[titleIndex..][1..] == title[titleIndex + 1..];
      assert query[queryIndex..][1..] == query[queryIndex + 1..];
      if title[titleIndex] == query[queryIndex] {
        queryIndex := queryIndex + 1;
      }
      titleIndex := titleIndex + 1;
    }
    return queryIndex == |query|;
  }

  /** The session test of `filteredSessions`: the `includes` test, then the fuzzy walk. */
  method SessionMatches(query: string, s: SessionMetadata) returns (keep: bool)
    ensures keep == MatchesQuery(query)(s)
  {
    var title := ToLower(s.title);
    keep := Includes(title, query);
    if !keep {
      keep := FuzzyMatch(query, title);
    }
  }

  /** `sessions.filter(...)` with the session test, in list order. */
  method FilterByQuery(sessions: seq<SessionMetadata>, query: string) returns (r: seq<SessionMetadata>)
    ensures r == Filter(sessions, MatchesQuery(query))
  {
    r := [];
    for i := 0 to |sessions|
      invariant r == Filter(sessions[..i], MatchesQuery(query))
    {
      var keep := SessionMatches(query, sessions[i]);
      if keep {
        r := r + [sessions[i]];
      }
      assert sessions[..i + 1] == sessions[..i] + [sessions[i]];
      FilterAppend(sessions[..i], sessions[i], MatchesQuery(query));
    }
    assert sessions[..|sessions|] == sessions;
  }

  /**
   * `filteredSessions`: a blank query keeps every session; otherwise the
   * lower-cased, trimmed query must match the lower-cased title.
   */
  method FilterSessions(sessions: seq<SessionMetadata>, searchQuery: string) returns (r: seq<SessionMetadata>)
    ensures AllWhitespace(searchQuery) ==> r == sessions
    ensures !AllWhitespace(searchQuery) ==> r == Filter(sessions, MatchesQuery(Trim(ToLower(searchQuery))))
  {
    if Trim(searchQuery) == [] {
      return sessions;
    }
    r := FilterByQuery(sessions, Trim(ToLower(searchQuery)));
  }

  /** A search result is an order-preserving sub-list whose titles all contain the query as a subsequence. */
  lemma FilteredSessionsMatch(sessions: seq<SessionMetadata>, query: string)
    ensures IsSublist(Filter(sessions, MatchesQuery(query)), sessions)
    ensures forall s | s in Filter(sessions, MatchesQuery(query)) :: IsSubsequence(query, ToLower(s.title))
    ensures forall s | s in sessions && IsSubsequence(query, ToLower(s.title)) :: s in Filter(sessions, MatchesQuery(query))
  {
    FilterIsSublist(sessions, MatchesQuery(query));
    forall s | s in Filter(sessions, MatchesQuery(query))
      ensures IsSubsequence(query, ToLower(s.title))
    {
      MatchesIffSubsequence(query, s);
    }
    forall s | s in sessions && IsSubsequence(query, ToLower(s.title))
      ensures s in Filter(sessions, MatchesQuery(query))
    {
      var k :| 0 <= k < |sessions| && sessions[k] == s;
      assert MatchesQuery(query)(sessions[k]);
    }
  }

  // ---------------------------------------------------------------- dropdown editing

  /** The dropdown's edit state and what it has asked its parent to do. */
  class HistoryDropdown {
    var editingSessionId: Option<string>
    var editingTitle: string
    var edits: seq<(string, string)>
    var selected: seq<string>
    var deleted: seq<string>
    var closeRequests: nat

    constructor()
      ensures editingSessionId.None? && editingTitle == ""
      ensures edits == [] && selected == [] && deleted == [] && closeRequests == 0
    {
      editingSessionId := None;
      editingTitle := "";
      edits := [];
      selected := [];
      deleted := [];
      closeRequests := 0;
    }

    /** The edit button: start editing that session with its current title. */
    method HandleEditClick(sessionId: string, currentTitle: string)
      modifies this
      ensures editingSessionId == Some(sessionId) && editingTitle == currentTitle
      ensures edits == old(edits) && selected == old(selected) && deleted == old(deleted) && closeRequests == old(closeRequests)
    {
      editingSessionId := Some(sessionId);
      editingTitle := currentTitle;
    }

    /** Typing in the edit box. */
    method SetEditingTitle(text: string)
      modifies this
      ensures editingTitle == text && editingSessionId == old(editingSessionId)
      ensures edits == old(edits) && selected == old(selected) && deleted == old(deleted) && closeRequests == old(closeRequests)
    {
      editingTitle := text;
    }

    /** `handleSaveEdit`: report a non-blank trimmed title, and always leave editing. */
    method HandleSaveEdit(sessionId: string)
      modifies this
      ensures editingSessionId.None? && editingTitle == ""
      ensures edits == old(edits) + (if Trim(old(editingTitle)) != "" then [(sessionId, Trim(old(editingTitle)))] else [])
      ensures selected == old(selected) && deleted == old(deleted) && closeRequests == old(closeRequests)
    {
      if Trim(editingTitle) != "" {
        edits := edits + [(sessionId, Trim(editingTitle))];
      }
      editingSessionId := None;
      editingTitle := "";
    }

    /** `handleCancelEdit`: leave editing without reporting anything. */
    method HandleCancelEdit()
      modifies this
      ensures editingSessionId.None? && editingTitle == ""
      ensures edits == old(edits) && selected == old(selected) && deleted == old(deleted) && closeRequests == old(closeRequests)
    {
      editingSessionId := None;
      editingTitle := "";
    }

    /** `handleEditKeyDown`: Enter saves, Escape cancels, other keys do nothing. */
    method HandleEditKeyDown(key: Key, sessionId: string)
      modifies this
      ensures key == Enter ==> (editingSessionId.None? && editingTitle == ""
        && edits == old(edits) + (if Trim(old(editingTitle)) != "" then [(sessionId, Trim(old(editingTitle)))] else []))
      ensures key == Escape ==> editingSessionId.None? && editingTitle == "" && edits == old(edits)
      ensures key == OtherKey ==> editingSessionId == old(editingSessionId) && editingTitle == old(editingTitle) && edits == old(edits)
      ensures selected == old(selected) && deleted == old(deleted) && closeRequests == old(closeRequests)
    {
      if key == Enter {
        HandleSaveEdit(sessionId);
      } else if key == Escape {
        HandleCancelEdit();
      }
    }

    /** The document-level keydown listener: Escape while the dropdown is open asks to close it. */
    method HandleDocumentKeyDown(key: Key, isOpen: bool)
      modifies this
      ensures closeRequests == old(closeRequests) + (if key == Escape && isOpen then 1 else 0)
      ensures editingSessionId == old(editingSessionId) && editingTitle == old(editingTitle)
      ensures edits == old(edits) && selected == old(selected) && deleted == old(deleted)
    {
      if key == Escape && isOpen {
        closeRequests := closeRequests + 1;
      }
    }

    /**
     * A key pressed in the edit box: the box's own handler runs, and the event
     * then bubbles to the document listener, since nothing stops it. The edit
     * box exists only while the dropdown is open, so Escape both cancels the
     * edit and closes the dropdown.
     */
    method EditBoxKeyDown(key: Key, sessionId: string)
      modifies this
      ensures key == Escape ==> (editingSessionId.None? && editingTitle == "" && edits == old(edits)
        && closeRequests == old(closeRequests) + 1)
      ensures key != Escape ==> closeRequests == old(closeRequests)
      ensures key == Enter ==> (editingSessionId.None? && editingTitle == ""
        && edits == old(edits) + (if Trim(old(editingTitle)) != "" then [(sessionId, Trim(old(editingTitle)))] else []))
      ensures key == OtherKey ==> editingSessionId == old(editingSessionId) && editingTitle == old(editingTitle) && edits == old(edits)
      ensures selected == old(selected) && deleted == old(deleted)
    {
      HandleEditKeyDown(key, sessionId);
      HandleDocumentKeyDown(key, true);
    }

    /** Clicking a session selects it and closes the dropdown, unless it is the one being edited. */
    method OnSessionClick(sessionId: string)
      modifies this
      ensures editingSessionId == Some(sessionId) ==> selected == old(selected) && closeRequests == old(closeRequests)
      ensures editingSessionId != Some(sessionId) ==> selected == old(selected) + [sessionId] && closeRequests == old(closeRequests) + 1
      ensures editingSessionId == old(editingSessionId) && editingTitle == old(editingTitle)
      ensures edits == old(edits) && deleted == old(deleted)
    {
      if editingSessionId != Some(sessionId) {
        selected := selected + [sessionId];
        closeRequests := closeRequests + 1;
      }
    }

    /** The dropdown deletes at once, without asking. */
    method HandleDeleteClick(sessionId: string)
      modifies this
      ensures deleted == old(deleted) + [sessionId]
      ensures editingSessionId == old(editingSessionId) && editingTitle == old(editingTitle)
      ensures edits == old(edits) && selected == old(selected) && closeRequests == old(closeRequests)
    {
      deleted := deleted + [sessionId];
    }
  }

  /** The sidebar asks for confirmation before it reports a deletion. */
  method SidebarDeleteClick(deleted: seq<string>, sessionId: string, confirmed: bool) returns (r: seq<string>)
    ensures confirmed ==> r == deleted + [sessionId]
    ensures !confirmed ==> r == deleted
  {
    r := deleted;
    if confirmed {
      r := r + [sessionId];
    }
  }
}
