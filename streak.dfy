/** The consecutive-day streak: walking back from today, how many days in a
    row have at least one row of a type, looking at most seven days back. */
module Streaks {
  import opened Ledger

  /** The walk visits today and the six days before it. */
  const StreakWindow: nat := 7

  /** The number of consecutive logged days from `today - i` backwards,
      stopping at the end of the window. */
  function StreakFrom(entries: seq<Entry>, userId: int, kind: string, today: int, i: nat): (n: nat)
    requires i <= StreakWindow
    ensures n <= StreakWindow - i
    decreases StreakWindow - i
  {
    if i == StreakWindow then 0
    else if LoggedOn(entries, userId, kind, today - i) then 1 + StreakFrom(entries, userId, kind, today, i + 1)
    else 0
  }

  /** The streak as of `today`. */
  function StreakLength(entries: seq<Entry>, userId: int, kind: string, today: int): (n: nat)
    ensures n <= StreakWindow
  {
    StreakFrom(entries, userId, kind, today, 0)
  }

  /** Walks back from today, one query per day, and stops at the first day
      without a row of the type. */
  method Streak(entries: seq<Entry>, userId: int, kind: string, today: int) returns (count: nat)
    ensures count == StreakLength(entries, userId, kind, today)
    ensures count <= StreakWindow
  {
    count := 0;
    for i := 0 to StreakWindow
      invariant count == i
      invariant StreakLength(entries, userId, kind, today) == count + StreakFrom(entries, userId, kind, today, i)
    {
      var day := today - i;
      if LoggedOn(entries, userId, kind, day) {
        count := count + 1;
      } else {
        break;
      }
    }
  }

  /** What StreakFrom counts: the days it covers are all logged, and when it
      stops before the window ends the next day is not. */
  lemma {:induction false} StreakFromMeaning(entries: seq<Entry>, userId: int, kind: string, today: int, i: nat)
    requires i <= StreakWindow
    ensures forall d :: today - i - StreakFrom(entries, userId, kind, today, i) < d <= today - i ==> LoggedOn(entries, userId, kind, d)
    ensures i + StreakFrom(entries, userId, kind, today, i) < StreakWindow ==>
      !LoggedOn(entries, userId, kind, today - (i + StreakFrom(entries, userId, kind, today, i)))
    decreases StreakWindow - i
  {
    if i < StreakWindow && LoggedOn(entries, userId, kind, today - i) {
      StreakFromMeaning(entries, userId, kind, today, i + 1);
    }
  }

  /** The streak is at most 7; every day it covers has a row of the type;
      when it is below 7 the day after the run has none. */
  lemma StreakMeaning(entries: seq<Entry>, userId: int, kind: string, today: int)
    ensures StreakLength(entries, userId, kind, today) <= StreakWindow
    ensures forall d :: today - StreakLength(entries, userId, kind, today) < d <= today ==> LoggedOn(entries, userId, kind, d)
    ensures StreakLength(entries, userId, kind, today) < StreakWindow ==>
      !LoggedOn(entries, userId, kind, today - StreakLength(entries, userId, kind, today))
  {
    StreakFromMeaning(entries, userId, kind, today, 0);
  }

  /** The converse: any count with those properties is the streak. */
  lemma {:induction false} StreakFromUnique(entries: seq<Entry>, userId: int, kind: string, today: int, i: nat, n: nat)
    requires i <= n <= StreakWindow
    requires forall d :: today - n < d <= today - i ==> LoggedOn(entries, userId, kind, d)
    requires n < StreakWindow ==> !LoggedOn(entries, userId, kind, today - n)
    ensures StreakFrom(entries, userId, kind, today, i) == n - i
    decreases StreakWindow - i
  {
    if i < n {
      StreakFromUnique(entries, userId, kind, today, i + 1, n);
    }
  }

  lemma StreakUnique(entries: seq<Entry>, userId: int, kind: string, today: int, n: nat)
    requires n <= StreakWindow
    requires forall d :: today - n < d <= today ==> LoggedOn(entries, userId, kind, d)
    requires n < StreakWindow ==> !LoggedOn(entries, userId, kind, today - n)
    ensures StreakLength(entries, userId, kind, today) == n
  {
    StreakFromUnique(entries, userId, kind, today, 0, n);
  }

  /** No row today means no streak, whatever was logged before. */
  lemma StreakZeroWithoutToday(entries: seq<Entry>, userId: int, kind: string, today: int)
    requires !LoggedOn(entries, userId, kind, today)
    ensures StreakLength(entries, userId, kind, today) == 0
  {
  }

  /** Logging a row of the type today starts (or keeps) a streak. */
  lemma LogTodayStartsStreak(entries: seq<Entry>, userId: int, kind: string, value: real, today: int)
    ensures StreakLength(entries + [Entry(userId, kind, value, today)], userId, kind, today) >= 1
  {
    var e := Entry(userId, kind, value, today);
    assert e in entries + [e] && Matches(e, userId, kind);
  }

  /** Appending a row of another type (or of another user) leaves the
      streak unchanged. */
  lemma {:induction false} StreakFromIgnoresOtherRows(entries: seq<Entry>, e: Entry, userId: int, kind: string, today: int, i: nat)
    requires i <= StreakWindow
    requires !Matches(e, userId, kind)
    ensures StreakFrom(entries + [e], userId, kind, today, i) == StreakFrom(entries, userId, kind, today, i)
    decreases StreakWindow - i
  {
    if i < StreakWindow {
      LoggedOnIgnoresOtherRow(entries, e, userId, kind, today - i);
      StreakFromIgnoresOtherRows(entries, e, userId, kind, today, i + 1);
    }
  }

  lemma LoggedOnIgnoresOtherRow(entries: seq<Entry>, e: Entry, userId: int, kind: string, day: int)
    requires !Matches(e, userId, kind)
    ensures LoggedOn(entries + [e], userId, kind, day) == LoggedOn(entries, userId, kind, day)
  {
    if LoggedOn(entries + [e], userId, kind, day) {
      var x :| x in entries + [e] && Matches(x, userId, kind) && x.day == day;
      assert x in entries;
    }
  }

  /** A row logged through the menu never extends or breaks the streak of a
      tracked type: the water streak the summary shows ignores it. */
  lemma MenuLogLeavesStreak(entries: seq<Entry>, e: Entry, userId: int, kind: string, today: int)
    requires e.kind in MenuKinds
    requires kind in TrackedKinds
    ensures StreakLength(entries + [e], userId, kind, today) == StreakLength(entries, userId, kind, today)
  {
    assert e.kind != kind;
    StreakFromIgnoresOtherRows(entries, e, userId, kind, today, 0);
  }
}
