/** The log table of the health tracker, abstracted as an append-only ledger
    of entries, together with the goal table, the per-entry warnings and the
    aggregate queries the reports run against the ledger. */
module Ledger {

  /** One row of the `logs` table. Dates are integer day ordinals. */
  datatype Entry = Entry(userId: int, kind: string, value: real, day: int)

  /** The metric kinds the goal table, the summary and the warnings know. */
  const Water: string := "water"
  const Sleep: string := "sleep"
  const Exercise: string := "exercise"

  /** The kinds the summary totals, in the order it visits them. */
  const TrackedKinds: seq<string> := [Water, Sleep, Exercise]

  /** The kind strings the interactive menu actually logs under. */
  const WaterMenuKind: string := "water Intake"
  const SleepMenuKind: string := "sleep Hours"
  const ExerciseMenuKind: string := "exercise Time"
  const MenuKinds: set<string> := {WaterMenuKind, SleepMenuKind, ExerciseMenuKind}

  /** Daily targets: water in ml, sleep in hours, exercise in minutes. */
  const Goals: map<string, real> := map[Water := 2500.0, Sleep := 7.0, Exercise := 30.0]

  /** The warnings `log_metric` may raise for a single entry. */
  datatype Warning = LowWaterEntry | ShortSleep | LowExercise

  /** The warnings raised for one logged entry, in the order they are tested.
      Each test compares the type string exactly, so at most one fires. */
  function EntryWarnings(kind: string, value: real): (ws: seq<Warning>)
    ensures LowWaterEntry in ws <==> kind == Water && value < 500.0
    ensures ShortSleep in ws <==> kind == Sleep && value < 7.0
    ensures LowExercise in ws <==> kind == Exercise && value < 30.0
    ensures |ws| <= 1
  {
    (if kind == Water && value < 500.0 then [LowWaterEntry] else [])
    + (if kind == Sleep && value < 7.0 then [ShortSleep] else [])
    + (if kind == Exercise && value < 30.0 then [LowExercise] else [])
  }

  /** The store of log rows; logging a metric appends one row. */
  class Store {
    var entries: seq<Entry>

    constructor ()
      ensures entries == []
    {
      entries := [];
    }

    /** Appends the row `(userId, kind, value, today)` and reports the
        warnings for it. */
    method LogMetric(userId: int, kind: string, value: real, today: int) returns (warnings: seq<Warning>)
      modifies this
      ensures entries == old(entries) + [Entry(userId, kind, value, today)]
      ensures warnings == EntryWarnings(kind, value)
    {
      entries := entries + [Entry(userId, kind, value, today)];
      warnings := EntryWarnings(kind, value);
    }
  }

  /** Whether an entry belongs to the user and has exactly the given type. */
  predicate Matches(e: Entry, userId: int, kind: string) {
    e.userId == userId && e.kind == kind
  }

  /** The sum of `value` over the user's entries of the given type, all dates,
      duplicates included; 0 when there are none (SQL `SUM(...) or 0`). */
  function Total(entries: seq<Entry>, userId: int, kind: string): (t: real)
  {
    if entries == [] then 0.0
    else (if Matches(entries[0], userId, kind) then entries[0].value else 0.0)
         + Total(entries[1..], userId, kind)
  }

  /** The number of the user's entries of the given type. */
  function Count(entries: seq<Entry>, userId: int, kind: string): (n: nat)
    ensures n <= |entries|
  {
    if entries == [] then 0
    else (if Matches(entries[0], userId, kind) then 1 else 0)
         + Count(entries[1..], userId, kind)
  }

  /** The count is positive exactly when some row of the user has the type. */
  lemma {:induction false} CountPositive(entries: seq<Entry>, userId: int, kind: string)
    ensures Count(entries, userId, kind) > 0 <==> exists e :: e in entries && Matches(e, userId, kind)
  {
    if entries != [] {
      CountPositive(entries[1..], userId, kind);
      assert forall e :: e in entries <==> e == entries[0] || e in entries[1..];
    }
  }

  /** Whether the user has at least one entry of the given type on `day`. */
  predicate LoggedOn(entries: seq<Entry>, userId: int, kind: string, day: int) {
    exists e :: e in entries && Matches(e, userId, kind) && e.day == day
  }

  /** Appending one entry adds its value to the total it matches and leaves
      every other total alone: same-day duplicates are summed, not replaced. */
  lemma {:induction false} TotalAppend(entries: seq<Entry>, e: Entry, userId: int, kind: string)
    ensures Total(entries + [e], userId, kind)
            == Total(entries, userId, kind) + (if Matches(e, userId, kind) then e.value else 0.0)
  {
    if entries != [] {
      assert (entries + [e])[1..] == entries[1..] + [e];
      TotalAppend(entries[1..], e, userId, kind);
    }
  }

  /** With no matching rows the total is 0, whatever else the ledger holds. */
  lemma {:induction false} TotalWithoutMatches(entries: seq<Entry>, userId: int, kind: string)
    requires forall e :: e in entries ==> !Matches(e, userId, kind)
    ensures Total(entries, userId, kind) == 0.0
  {
    if entries != [] {
      assert entries[0] in entries;
      TotalWithoutMatches(entries[1..], userId, kind);
    }
  }

  /** `n` copies of `x` added up: `x * n`, written without a product so
      that the bounds below stay linear. */
  function Times(x: real, n: nat): (t: real) {
    if n == 0 then 0.0 else x + Times(x, n - 1)
  }

  lemma {:induction false} TimesIsProduct(x: real, n: nat)
    ensures Times(x, n) == x * (n as real)
  {
    if n > 0 {
      TimesIsProduct(x, n - 1);
      assert x * (n as real) == x + x * ((n - 1) as real);
    }
  }

  /** The total lies between `count * lo` and `count * hi` when every value
      it sums lies between `lo` and `hi`. */
  lemma {:induction false} TotalWithinBounds(entries: seq<Entry>, userId: int, kind: string, lo: real, hi: real)
    requires forall i :: 0 <= i < |entries| && Matches(entries[i], userId, kind) ==> lo <= entries[i].value <= hi
    ensures Times(lo, Count(entries, userId, kind)) <= Total(entries, userId, kind)
    ensures Total(entries, userId, kind) <= Times(hi, Count(entries, userId, kind))
  {
    if entries != [] {
      TotalWithinBounds(entries[1..], userId, kind, lo, hi);
    }
  }

  /** Rows logged through the menu never raise a warning, whatever the value:
      their type strings never equal the keys the warnings test. */
  lemma MenuKindsNeverWarn(kind: string, value: real)
    requires kind in MenuKinds
    ensures EntryWarnings(kind, value) == []
  {
    assert MenuKinds == {"water Intake", "sleep Hours", "exercise Time"};
    assert kind != Water && kind != Sleep && kind != Exercise;
  }

  /** A row logged through the menu leaves every summary total unchanged. */
  lemma MenuLogLeavesTotals(entries: seq<Entry>, e: Entry, userId: int, kind: string)
    requires e.kind in MenuKinds
    requires kind in TrackedKinds
    ensures Total(entries + [e], userId, kind) == Total(entries, userId, kind)
  {
    assert e.kind != kind;
    TotalAppend(entries, e, userId, kind);
  }
}
