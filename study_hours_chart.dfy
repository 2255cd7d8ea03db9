/**
 * The bucketing in `StudyHoursChart.fetchStudyData`: seven `dd/mm` buckets for
 * today and the six days before it, each starting at 0, then every stored study
 * session whose own `dd/mm` names a bucket adds its whole minutes to it, and the
 * buckets are listed in the order they were created. The local calendar is not
 * modelled: `daysBefore(i)` is the calendar day `i` days before now and
 * `localDate(t)` the calendar day of timestamp `t`.
 */
module StudyHoursChartBuckets {
  import opened Wrappers
  import opened JsBuiltins

  /** `getDate()` (1..31) and `getMonth()` (0..11) of a local date. */
  datatype CalendarDay = CalendarDay(date: int, monthIndex: int)

  /** A stored study session, times in milliseconds. */
  datatype Session = Session(timestamp: int, duration: int)

  /** One bar of the chart. */
  datatype DayMinutes = DayMinutes(day: string, minutes: int)

  predicate ValidDay(d: CalendarDay) {
    1 <= d.date <= 31 && 0 <= d.monthIndex <= 11
  }

  /** `dd/mm`, each part `String(n).padStart(2, "0")`, the month counted from 1. */
  function Label(d: CalendarDay): (r: string)
    ensures |r| >= 5 && '/' in r
  {
    Pad2(d.date) + ['/'] + Pad2(d.monthIndex + 1)
  }

  /** `Math.floor(duration / 60000)`. */
  function WholeMinutes(duration: int): (m: int)
    ensures m * 60000 <= duration < m * 60000 + 60000
  {
    duration / 60000
  }

  /** The labels the initialisation loop writes, in the order it writes them:
      6 days back first, today last. */
  function WeekLabels(labelOf: CalendarDay -> string, daysBefore: nat -> CalendarDay): (r: seq<string>)
    ensures |r| == 7
    ensures forall j :: 0 <= j < 7 ==> r[j] == labelOf(daysBefore(6 - j))
  {
    seq(7, j requires 0 <= j < 7 => labelOf(daysBefore(6 - j)))
  }

  predicate Distinct(s: seq<string>) {
    forall i, j :: 0 <= i < j < |s| ==> s[i] != s[j]
  }

  /** Assigning `x` to an object whose keys, in order, are `keys`. */
  function AddKey(keys: seq<string>, x: string): (r: seq<string>)
    ensures x in r
    ensures |r| <= |keys| + 1
  {
    if x in keys then keys else keys + [x]
  }

  /** The key order of an object whose keys are assigned in the order `s`: a key
      keeps the place of its first assignment. JavaScript lists keys that are array
      indices first, in numeric order; this order is for the other keys, which every
      `dd/mm` label is, since it holds a "/". */
  function InsertionOrder(s: seq<string>): (r: seq<string>)
    ensures |r| <= |s|
    decreases |s|
  {
    if s == [] then [] else AddKey(InsertionOrder(s[..|s| - 1]), s[|s| - 1])
  }

  /** Exactly the assigned keys appear. */
  lemma {:induction false} InsertionOrderKeys(s: seq<string>)
    ensures forall x :: x in InsertionOrder(s) <==> x in s
    decreases |s|
  {
    if s != [] {
      var init := s[..|s| - 1];
      InsertionOrderKeys(init);
      assert s == init + [s[|s| - 1]];
    }
  }

  /** Each key appears once. */
  lemma {:induction false} InsertionOrderDistinct(s: seq<string>)
    ensures Distinct(InsertionOrder(s))
    decreases |s|
  {
    if s != [] {
      InsertionOrderDistinct(s[..|s| - 1]);
    }
  }

  /** Assigning one more key: it goes at the end unless it is already there. */
  lemma InsertionOrderAppend(s: seq<string>, x: string)
    ensures InsertionOrder(s + [x]) == AddKey(InsertionOrder(s), x)
  {
    assert (s + [x])[..|s + [x]| - 1] == s;
  }

  /** Keys assigned without repetition keep exactly their order. */
  lemma {:induction false} InsertionOrderOfDistinct(s: seq<string>)
    requires Distinct(s)
    ensures InsertionOrder(s) == s
    decreases |s|
  {
    if s != [] {
      var init := s[..|s| - 1];
      assert Distinct(init);
      InsertionOrderOfDistinct(init);
      assert s[|s| - 1] !in init;
      assert s == init + [s[|s| - 1]];
      assert InsertionOrder(s) == AddKey(init, s[|s| - 1]);
    }
  }

  /** No session's day carries the label `key`. */
  predicate NoneLabelled(labelOf: CalendarDay -> string, key: string, localDate: int -> CalendarDay, sessions: seq<Session>)
    decreases |sessions|
  {
    sessions == [] ||
    (labelOf(localDate(sessions[0].timestamp)) != key && NoneLabelled(labelOf, key, localDate, sessions[1..]))
  }

  /** The minutes contributed by the sessions whose label is `key`. */
  function MinutesFor(labelOf: CalendarDay -> string, key: string, localDate: int -> CalendarDay, sessions: seq<Session>): (r: int)
    ensures NoneLabelled(labelOf, key, localDate, sessions) ==> r == 0
    decreases |sessions|
  {
    if sessions == [] then 0
    else
      (if labelOf(localDate(sessions[0].timestamp)) == key then WholeMinutes(sessions[0].duration) else 0)
      + MinutesFor(labelOf, key, localDate, sessions[1..])
  }

  /** A session added at the end adds its minutes to its own bucket and nothing to
      any other; the year plays no part, only the day and month of the label. */
  lemma {:induction false} MinutesForAppend(labelOf: CalendarDay -> string, key: string, localDate: int -> CalendarDay,
                                           sessions: seq<Session>, s: Session)
    ensures MinutesFor(labelOf, key, localDate, sessions + [s]) ==
      MinutesFor(labelOf, key, localDate, sessions) +
      (if labelOf(localDate(s.timestamp)) == key then WholeMinutes(s.duration) else 0)
    decreases |sessions|
  {
    if sessions != [] {
      assert (sessions + [s])[1..] == sessions[1..] + [s];
      MinutesForAppend(labelOf, key, localDate, sessions[1..], s);
    } else {
      assert [s][1..] == [];
    }
  }

  /** With no negative durations no bucket total is negative. */
  lemma {:induction false} MinutesNonNegative(labelOf: CalendarDay -> string, key: string, localDate: int -> CalendarDay, sessions: seq<Session>)
    requires forall i :: 0 <= i < |sessions| ==> sessions[i].duration >= 0
    ensures MinutesFor(labelOf, key, localDate, sessions) >= 0
    decreases |sessions|
  {
    if sessions != [] {
      MinutesNonNegative(labelOf, key, localDate, sessions[1..]);
    }
  }

  /** The first two characters of a separated pair and what follows the separator. */
  lemma PairParts(x: string, c: char, y: string)
    requires |x| == 2
    ensures (x + [c] + y)[..2] == x && (x + [c] + y)[3..] == y
  {
  }

  /** A valid day's label is its two-digit day, "/" and its two-digit month. */
  lemma LabelFormat(d: CalendarDay)
    requires ValidDay(d)
    ensures |Label(d)| == 5 && Label(d)[2] == '/'
    ensures Label(d)[..2] == Pad2(d.date) && Label(d)[3..] == Pad2(d.monthIndex + 1)
  {
    var x, y := Pad2(d.date), Pad2(d.monthIndex + 1);
    Pad2Length(d.date);
    Pad2Length(d.monthIndex + 1);
    assert Label(d) == x + ['/'] + y;
    PairParts(x, '/', y);
  }

  lemma Pad2Injective(m: int, n: int)
    requires 0 <= m < 100 && 0 <= n < 100 && Pad2(m) == Pad2(n)
    ensures m == n
  {
    Pad2Small(m);
    Pad2Small(n);
  }

  /** Two-digit day and month make labels of valid days distinct. */
  lemma LabelInjective(a: CalendarDay, b: CalendarDay)
    requires ValidDay(a) && ValidDay(b) && Label(a) == Label(b)
    ensures a == b
  {
    LabelFormat(a);
    LabelFormat(b);
    Pad2Injective(a.date, b.date);
    Pad2Injective(a.monthIndex + 1, b.monthIndex + 1);
  }

  /** Seven different valid days under a label function that tells valid days
      apart give seven different labels, kept in order. */
  lemma {:induction false} WeekInOrderBy(labelOf: CalendarDay -> string, daysBefore: nat -> CalendarDay)
    requires forall a, b :: ValidDay(a) && ValidDay(b) && labelOf(a) == labelOf(b) ==> a == b
    requires forall i: nat :: i < 7 ==> ValidDay(daysBefore(i))
    requires forall i: nat, j: nat :: i < j < 7 ==> daysBefore(i) != daysBefore(j)
    ensures InsertionOrder(WeekLabels(labelOf, daysBefore)) == WeekLabels(labelOf, daysBefore)
  {
    var w := WeekLabels(labelOf, daysBefore);
    forall i, j | 0 <= i < j < 7 ensures w[i] != w[j] {
      var di: nat, dj: nat := 6 - i, 6 - j;
      assert w[i] == labelOf(daysBefore(di)) && w[j] == labelOf(daysBefore(dj));
    }
    InsertionOrderOfDistinct(w);
  }

  /** When the seven calendar days are valid and different, the buckets are exactly
      their seven `dd/mm` labels, oldest first. */
  lemma WeekInOrder(daysBefore: nat -> CalendarDay)
    requires forall i: nat :: i < 7 ==> ValidDay(daysBefore(i))
    requires forall i: nat, j: nat :: i < j < 7 ==> daysBefore(i) != daysBefore(j)
    ensures InsertionOrder(WeekLabels(Label, daysBefore)) == WeekLabels(Label, daysBefore)
  {
    forall a, b | ValidDay(a) && ValidDay(b) && Label(a) == Label(b) ensures a == b {
      LabelInjective(a, b);
    }
    WeekInOrderBy(Label, daysBefore);
  }

  /** `dailyMinutes[key] = 0` on a map of zero buckets whose keys, in order, are
      `keys`. */
  lemma ZeroBucket(keys: seq<string>, dailyMinutes: map<string, int>, key: string, updated: map<string, int>)
    requires forall k :: k in dailyMinutes <==> k in keys
    requires forall k :: k in dailyMinutes ==> dailyMinutes[k] == 0
    requires updated == dailyMinutes[key := 0]
    ensures forall k :: k in updated <==> k in AddKey(keys, key)
    ensures forall k :: k in updated ==> updated[k] == 0
  {
  }

  /** The initialisation loop: a zero bucket for each of the seven days, 6 days
      back first. */
  method InitBuckets(labelOf: CalendarDay -> string, daysBefore: nat -> CalendarDay)
    returns (keys: seq<string>, dailyMinutes: map<string, int>)
    ensures keys == InsertionOrder(WeekLabels(labelOf, daysBefore))
    ensures forall k :: k in dailyMinutes <==> k in keys
    ensures forall k :: k in dailyMinutes ==> dailyMinutes[k] == 0
  {
    var week := WeekLabels(labelOf, daysBefore);
    keys := [];
    dailyMinutes := map[];
    var i: int := 6;
    while i >= 0
      invariant -1 <= i <= 6
      invariant keys == InsertionOrder(week[..6 - i])
      invariant forall k :: k in dailyMinutes <==> k in keys
      invariant forall k :: k in dailyMinutes ==> dailyMinutes[k] == 0
    {
      var key := labelOf(daysBefore(i));
      assert week[..6 - i + 1] == week[..6 - i] + [key];
      InsertionOrderAppend(week[..6 - i], key);
      ZeroBucket(keys, dailyMinutes, key, dailyMinutes[key := 0]);
      keys := AddKey(keys, key);
      dailyMinutes := dailyMinutes[key := 0];
      i := i - 1;
    }
    assert week[..7] == week;
  }

  /** The `sessions.forEach`: each session whose label is a bucket adds its whole
      minutes there; no bucket is created. */
  method AddSessions(labelOf: CalendarDay -> string, localDate: int -> CalendarDay,
                     sessions: seq<Session>, start: map<string, int>)
    returns (dailyMinutes: map<string, int>)
    requires forall k :: k in start ==> start[k] == 0
    ensures dailyMinutes.Keys == start.Keys
    ensures forall k :: k in dailyMinutes ==> dailyMinutes[k] == MinutesFor(labelOf, k, localDate, sessions)
  {
    dailyMinutes := start;
    for n := 0 to |sessions|
      invariant dailyMinutes.Keys == start.Keys
      invariant forall k :: k in dailyMinutes ==> dailyMinutes[k] == MinutesFor(labelOf, k, localDate, sessions[..n])
    {
      var session := sessions[n];
      var key := labelOf(localDate(session.timestamp));
      assert sessions[..n + 1] == sessions[..n] + [session];
      forall k | k in dailyMinutes
        ensures MinutesFor(labelOf, k, localDate, sessions[..n + 1]) ==
          MinutesFor(labelOf, k, localDate, sessions[..n]) + (if key == k then WholeMinutes(session.duration) else 0)
      {
        MinutesForAppend(labelOf, k, localDate, sessions[..n], session);
      }
      if key in dailyMinutes {
        dailyMinutes := dailyMinutes[key := dailyMinutes[key] + WholeMinutes(session.duration)];
      }
    }
    assert sessions[..|sessions|] == sessions;
  }

  /** The bucketing with the label of a calendar day as a parameter `labelOf`. */
  method Bucket(signedIn: bool, labelOf: CalendarDay -> string, daysBefore: nat -> CalendarDay,
                localDate: int -> CalendarDay, sessions: seq<Session>)
    returns (data: Option<seq<DayMinutes>>)
    ensures !signedIn <==> data == None
    ensures data.Some? ==> |data.value| == |InsertionOrder(WeekLabels(labelOf, daysBefore))|
    ensures data.Some? ==> forall j :: 0 <= j < |data.value| ==>
      data.value[j].day == InsertionOrder(WeekLabels(labelOf, daysBefore))[j] &&
      data.value[j].minutes == MinutesFor(labelOf, data.value[j].day, localDate, sessions)
  {
    if !signedIn {
      return None;
    }
    var keys, zeros := InitBuckets(labelOf, daysBefore);
    var dailyMinutes := AddSessions(labelOf, localDate, sessions, zeros);
    // Object.entries(dailyMinutes).map(([day, minutes]) => ({ day, minutes }))
    var rows := seq(|keys|, j requires 0 <= j < |keys| => DayMinutes(keys[j], dailyMinutes[keys[j]]));
    return Some(rows);
  }

  /** `fetchStudyData` from the sessions on: nothing when no user is signed in,
      otherwise the chart rows keyed by `dd/mm`. */
  method FetchStudyData(signedIn: bool, daysBefore: nat -> CalendarDay,
                        localDate: int -> CalendarDay, sessions: seq<Session>)
    returns (data: Option<seq<DayMinutes>>)
    ensures !signedIn <==> data == None
    ensures data.Some? ==> |data.value| == |InsertionOrder(WeekLabels(Label, daysBefore))|
    ensures data.Some? ==> forall j :: 0 <= j < |data.value| ==>
      data.value[j].day == InsertionOrder(WeekLabels(Label, daysBefore))[j] &&
      data.value[j].minutes == MinutesFor(Label, data.value[j].day, localDate, sessions)
  {
    data := Bucket(signedIn, Label, daysBefore, localDate, sessions);
  }
}
