/**
 * `calculateStreaks`: the study sessions' timestamps become a set of distinct UTC
 * day numbers, which are sorted and walked once to find the running and the longest
 * run of consecutive days. The running streak is dropped to 0 when yesterday has no
 * session, and the longest streak is reconciled with the one saved in the store,
 * which is rewritten only when the new value is strictly larger.
 *
 * A day is the integer `timestamp / 86400000`: the "YYYY-MM-DD" prefix of
 * `toISOString()` names exactly that UTC day, and `new Date(key)` is its midnight,
 * so the walk's `Math.floor((date - prevDate) / 86400000)` is the difference of
 * day numbers.
 */
module Streaks {
  import opened Wrappers
  import opened JsBuiltins

  const MsPerDay := 86400000

  /** The UTC calendar day of a millisecond timestamp. */
  function DayKey(ts: int): (d: int)
    ensures d * MsPerDay <= ts < d * MsPerDay + MsPerDay
  {
    ts / MsPerDay
  }

  /** The "yesterday" key: the day of the instant one day before `nowMs`. */
  lemma YesterdayIsPreviousDay(nowMs: int)
    ensures DayKey(nowMs - MsPerDay) == DayKey(nowMs) - 1
  {
    var d := DayKey(nowMs);
    assert (d - 1) * MsPerDay <= nowMs - MsPerDay < (d - 1) * MsPerDay + MsPerDay;
    DayKeyUnique(nowMs - MsPerDay, d - 1);
  }

  /** The day of a timestamp is the only day whose span contains it. */
  lemma DayKeyUnique(ts: int, d: int)
    requires d * MsPerDay <= ts < d * MsPerDay + MsPerDay
    ensures DayKey(ts) == d
  {
  }

  function Elements(s: seq<int>): set<int> {
    set x | x in s
  }

  /** The set of distinct days on which the sessions took place. */
  function DaySetOf(timestamps: seq<int>): set<int> {
    set t | t in timestamps :: DayKey(t)
  }

  predicate NoDuplicates(s: seq<int>) {
    forall i, j :: 0 <= i < j < |s| ==> s[i] != s[j]
  }

  predicate StrictlyIncreasing(s: seq<int>) {
    forall i :: 0 < i < |s| ==> s[i - 1] < s[i]
  }

  /** Every one of the `n` consecutive days ending at `last` is in `days`. */
  predicate RunIn(days: set<int>, last: int, n: nat) {
    forall k :: last - n < k <= last ==> k in days
  }

  /** `n` is the length of the longest run of consecutive days in `days`. */
  ghost predicate IsLongestRun(days: set<int>, n: nat) {
    (exists last :: RunIn(days, last, n)) && forall last, m: nat :: RunIn(days, last, m) ==> m <= n
  }

  predicate IsLatest(days: set<int>, last: int) {
    last in days && forall x :: x in days ==> x <= last
  }

  /** `n` is the length of the run of consecutive days that ends at the latest day. */
  ghost predicate IsLatestRun(days: set<int>, n: nat) {
    exists last :: IsLatest(days, last) && RunIn(days, last, n) && last - n !in days
  }

  /** The longest run is at least one day long exactly when there is a day at all. */
  lemma LongestRunPositive(days: set<int>, n: nat)
    requires IsLongestRun(days, n)
    ensures n >= 1 <==> days != {}
  {
    forall x | x in days ensures n >= 1 {
      assert RunIn(days, x, 1);
    }
    if n >= 1 {
      var last :| RunIn(days, last, n);
      assert last in days;
    }
  }

  /** The longest run is determined by the set of days. */
  lemma LongestRunUnique(days: set<int>, a: nat, b: nat)
    requires IsLongestRun(days, a) && IsLongestRun(days, b)
    ensures a == b
  {
    var la :| RunIn(days, la, a);
    var lb :| RunIn(days, lb, b);
  }

  /** The run ending at the latest day is determined by the set of days. */
  lemma LatestRunUnique(days: set<int>, a: nat, b: nat)
    requires IsLatestRun(days, a) && IsLatestRun(days, b)
    ensures a == b
  {
    var la :| IsLatest(days, la) && RunIn(days, la, a) && la - a !in days;
    var lb :| IsLatest(days, lb) && RunIn(days, lb, b) && lb - b !in days;
    assert la == lb;
  }

  /** The run ending at the latest day is never longer than the longest run. */
  lemma LatestRunAtMostLongest(days: set<int>, c: nat, h: nat)
    requires IsLatestRun(days, c) && IsLongestRun(days, h)
    ensures c <= h
  {
    var last :| IsLatest(days, last) && RunIn(days, last, c) && last - c !in days;
  }

  /** A second session on an already seen day adds nothing. */
  lemma SameDayCollapses(timestamps: seq<int>, t: int)
    requires DayKey(t) in DaySetOf(timestamps)
    ensures DaySetOf(timestamps + [t]) == DaySetOf(timestamps)
  {
    assert DaySetOf(timestamps + [t]) == DaySetOf(timestamps) + {DayKey(t)};
  }

  /** `datesSet`, filled by `snapshot.forEach`: a JavaScript `Set` keeps its
      elements once each, in insertion order, so it is the sequence of the days in
      order of first appearance. */
  method CollectDayKeys(timestamps: seq<int>) returns (keys: seq<int>)
    ensures NoDuplicates(keys)
    ensures Elements(keys) == DaySetOf(timestamps)
  {
    keys := [];
    for i := 0 to |timestamps|
      invariant NoDuplicates(keys)
      invariant Elements(keys) == DaySetOf(timestamps[..i])
    {
      var key := DayKey(timestamps[i]);
      assert timestamps[..i + 1] == timestamps[..i] + [timestamps[i]];
      assert DaySetOf(timestamps[..i + 1]) == DaySetOf(timestamps[..i]) + {key};
      if key !in keys {
        keys := keys + [key];
      }
    }
    assert timestamps[..|timestamps|] == timestamps;
  }

  /** Inserts `x` into an ascending sequence that does not hold it. */
  function Insert(x: int, s: seq<int>): (r: seq<int>)
    requires StrictlyIncreasing(s) && x !in s
    ensures StrictlyIncreasing(r)
    ensures Elements(r) == Elements(s) + {x} && |r| == |s| + 1
    ensures r[0] == x || (s != [] && r[0] == s[0])
  {
    if s == [] then [x]
    else if x < s[0] then [x] + s
    else
      assert Elements(s) == {s[0]} + Elements(s[1..]);
      [s[0]] + Insert(x, s[1..])
  }

  /** `Array.from(datesSet).sort((a, b) => a - b)`: the days in ascending order. */
  function SortAscending(keys: seq<int>): (r: seq<int>)
    requires NoDuplicates(keys)
    ensures StrictlyIncreasing(r)
    ensures Elements(r) == Elements(keys) && |r| == |keys|
  {
    if keys == [] then []
    else
      var rest := keys[..|keys| - 1];
      var last := keys[|keys| - 1];
      assert keys == rest + [last];
      assert Elements(keys) == Elements(rest) + {last};
      Insert(last, SortAscending(rest))
  }

  /** The empty set holds no run of one day or more. */
  lemma NoRunInEmpty(days: set<int>)
    requires days == {}
    ensures forall last, m: nat :: m > 0 ==> !RunIn(days, last, m)
  {
    forall last, m: nat | m > 0 ensures !RunIn(days, last, m) {
      assert last !in days;
    }
  }

  /** A run in a set is a run in any larger set. */
  lemma RunGrows(days: set<int>, d: int, last: int, n: nat)
    requires RunIn(days, last, n)
    ensures RunIn(days + {d}, last, n)
  {
  }

  /** No day in `days` is later than `bound`. */
  predicate AtMost(days: set<int>, bound: int) {
    forall x :: x in days ==> x <= bound
  }

  /** The maximal run of consecutive days that ends at `last` has length `n`. */
  predicate RunEndingAt(days: set<int>, last: int, n: nat) {
    RunIn(days, last, n) && last - n !in days
  }

  /** No run in `days` is longer than `high`. */
  ghost predicate NoRunLonger(days: set<int>, high: nat) {
    forall last, m: nat :: RunIn(days, last, m) ==> m <= high
  }

  lemma AtMostAdd(seen: set<int>, prev: int, d: int)
    requires AtMost(seen, prev) && prev < d
    ensures AtMost(seen + {d}, d) && AtMost(seen, d - 1)
  {
  }

  /** The walk's update of the running streak when the day `d`, later than every day
      seen so far, is added after `prev`. */
  lemma StepCurrent(seen: set<int>, prev: int, cur: nat, d: int)
    requires AtMost(seen, prev) && prev < d
    requires RunEndingAt(seen, prev, cur)
    ensures RunEndingAt(seen + {d}, d, if d - prev == 1 then cur + 1 else 1)
  {
    if d - prev != 1 {
      assert d - 1 !in seen;
    }
  }

  /** The first day walked is a run of one. */
  lemma FirstDay(d: int)
    ensures RunEndingAt({d}, d, 1)
  {
    assert d - 1 !in {d};
  }

  /** The longest run after adding the day `d`, later than every day seen so far, is
      the longest before or the run that ends at `d`. */
  lemma StepLongest(seen: set<int>, d: int, high: nat, cur: nat)
    requires AtMost(seen, d - 1)
    requires NoRunLonger(seen, high)
    requires RunEndingAt(seen + {d}, d, cur)
    ensures NoRunLonger(seen + {d}, MathMax(high, cur))
  {
    var all := seen + {d};
    forall last, m: nat | RunIn(all, last, m) ensures m <= MathMax(high, cur) {
      if m > 0 {
        assert last in all;
        if last < d {
          assert RunIn(seen, last, m);
        }
      }
    }
  }

  /** The `for (let date of dates)` walk over the ascending days. */
  method WalkDays(days: seq<int>) returns (current: nat, highest: nat)
    requires StrictlyIncreasing(days)
    ensures days == [] ==> current == 0
    ensures days != [] ==> IsLatestRun(Elements(days), current) && current >= 1
    ensures IsLongestRun(Elements(days), highest)
    ensures current <= highest
  {
    ghost var seen: set<int> := {};
    ghost var highEnd := 0;
    var prev: Option<int> := None;
    current, highest := 0, 0;
    NoRunInEmpty(seen);
    for i := 0 to |days|
      invariant seen == Elements(days[..i])
      invariant i == 0 ==> prev == None && seen == {} && current == 0 && highest == 0
      invariant i > 0 ==> prev == Some(days[i - 1]) && current >= 1
      invariant i > 0 ==> AtMost(seen, days[i - 1]) && RunEndingAt(seen, days[i - 1], current)
      invariant RunIn(seen, highEnd, highest) && NoRunLonger(seen, highest)
      invariant current <= highest
    {
      var date := days[i];
      if prev.None? {
        current := 1;
        FirstDay(date);
      } else {
        var diff := date - prev.value;
        assert diff >= 1;
        AtMostAdd(seen, prev.value, date);
        StepCurrent(seen, prev.value, current, date);
        if diff == 1 {
          current := current + 1;
        } else if diff > 1 {
          current := 1;
        }
      }
      StepLongest(seen, date, highest, current);
      if current > highest {
        highEnd := date;
      } else {
        RunGrows(seen, date, highEnd, highest);
      }
      highest := MathMax(highest, current);
      prev := Some(date);
      assert days[..i + 1] == days[..i] + [date];
      seen := seen + {date};
    }
    assert days[..|days|] == days;
    if days != [] {
      assert IsLatest(seen, days[|days| - 1]);
    }
  }

  /** The stored document `meta/streaks`: absent, or present with a `longestStreak`
      field that may be missing. */
  datatype SavedRecord = NoDocument | Document(longestStreak: Option<int>)

  /** `streakSnap.data().longestStreak || 0`, or 0 without a document: a missing
      field, like a stored 0, reads as 0. */
  function SavedValue(saved: SavedRecord): (v: int)
    ensures saved.NoDocument? || saved.longestStreak.None? ==> v == 0
    ensures saved.Document? && saved.longestStreak.Some? ==> v == saved.longestStreak.value
  {
    match saved
    case NoDocument => 0
    case Document(field) => if field.Some? then field.value else 0
  }

  datatype StreakResult = StreakResult(currentStreak: nat, highestStreak: int)

  /** `calculateStreaks()`. `signedIn` stands for `auth.currentUser`, `timestamps`
      for the fetched sessions, `nowMs` for the clock and `saved` for the fetched
      streak document; `write` is the value passed to `setDoc`, if any.
      `passHighest` is the longest run found by the walk, before reconciliation. */
  method CalculateStreaks(signedIn: bool, timestamps: seq<int>, nowMs: int, saved: SavedRecord)
    returns (result: StreakResult, write: Option<int>, ghost passHighest: nat)
    ensures !signedIn ==> result == StreakResult(0, 0) && write == None
    ensures signedIn ==> IsLongestRun(DaySetOf(timestamps), passHighest)
    ensures signedIn && DayKey(nowMs) - 1 !in DaySetOf(timestamps) ==> result.currentStreak == 0
    ensures signedIn && DayKey(nowMs) - 1 in DaySetOf(timestamps) ==>
      IsLatestRun(DaySetOf(timestamps), result.currentStreak) && result.currentStreak <= passHighest
    ensures signedIn ==> result.highestStreak == MathMax(SavedValue(saved), passHighest)
    ensures signedIn ==> (write.Some? <==> passHighest > SavedValue(saved))
    ensures write.Some? ==> write.value == result.highestStreak
    ensures signedIn && timestamps == [] && SavedValue(saved) >= 0 ==>
      result == StreakResult(0, SavedValue(saved)) && write == None
  {
    if !signedIn {
      return StreakResult(0, 0), None, 0;
    }
    var keys := CollectDayKeys(timestamps);
    var dates := SortAscending(keys);
    var current, highest := WalkDays(dates);
    passHighest := highest;

    var yKey := DayKey(nowMs - MsPerDay);
    YesterdayIsPreviousDay(nowMs);
    if yKey !in keys {
      current := 0;
    }

    var savedStreak := SavedValue(saved);
    var newHighest := MathMax(savedStreak, highest);
    write := if newHighest > savedStreak then Some(newHighest) else None;
    result := StreakResult(current, newHighest);
    if timestamps == [] {
      LongestRunPositive(DaySetOf(timestamps), highest);
    }
  }
}
