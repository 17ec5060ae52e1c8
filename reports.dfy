/** The two reports built from the ledger: the lifetime summary and the
    weekly averages. */
module Reports {
  import opened Ledger
  import opened Bmi
  import opened Streaks

  /** What the summary shows: lifetime totals per tracked kind, the BMI
      reading, the kinds short of their goal, the water streak and the
      suggestions. */
  datatype Summary = Summary(
    totals: map<string, real>,
    reading: BmiReading,
    shortfalls: set<string>,
    waterStreak: nat,
    advice: Advice)

  /** Builds the summary for a user. The totals have no date bound; the
      classification fails for a height of 0, and then so does the summary. */
  method BuildSummary(entries: seq<Entry>, userId: int, age: int, weight: real, height: real, today: int)
    returns (r: Result<Summary>)
    ensures r.Ok? <==> height != 0.0
    ensures r.Ok? ==> r.value.totals.Keys == Goals.Keys
    ensures r.Ok? ==> forall k :: k in r.value.totals ==> r.value.totals[k] == Total(entries, userId, k)
    ensures r.Ok? ==> forall k :: k in r.value.shortfalls <==> k in Goals && Total(entries, userId, k) < Goals[k]
    ensures r.Ok? ==> r.value.reading == BmiStatus(weight, height).value
    ensures r.Ok? ==> r.value.waterStreak == StreakLength(entries, userId, Water, today)
    ensures r.Ok? ==> r.value.advice == Suggestions(r.value.reading.bmi, age)
  {
    var data: map<string, real> := map[];
    for j := 0 to |TrackedKinds|
      invariant data.Keys == set k | k in TrackedKinds[..j]
      invariant forall k :: k in data ==> data[k] == Total(entries, userId, k)
    {
      var m := TrackedKinds[j];
      data := data[m := Total(entries, userId, m)];
    }
    assert TrackedKinds[..|TrackedKinds|] == TrackedKinds;
    assert data.Keys == Goals.Keys;

    var status := BmiStatus(weight, height);
    if status.Err? {
      return Err(status.error);
    }
    var advice := Suggestions(status.value.bmi, age);

    var shortfalls: set<string> := {};
    if data[Water] < Goals[Water] {
      shortfalls := shortfalls + {Water};
    }
    if data[Sleep] < Goals[Sleep] {
      shortfalls := shortfalls + {Sleep};
    }
    if data[Exercise] < Goals[Exercise] {
      shortfalls := shortfalls + {Exercise};
    }

    var waterStreak := Streak(entries, userId, Water, today);
    r := Ok(Summary(data, status.value, shortfalls, waterStreak, advice));
  }

  /** How far back the weekly report looks: rows dated on or after
      `today - 7` are in, so the window spans eight calendar days. */
  const WeeklyLookback: int := 7

  /** The rows dated on or after `since`, in ledger order. */
  function Recent(entries: seq<Entry>, since: int): (w: seq<Entry>)
    ensures |w| <= |entries|
  {
    if entries == [] then []
    else (if entries[0].day >= since then [entries[0]] else []) + Recent(entries[1..], since)
  }

  /** The window holds exactly the rows dated on or after `since`. */
  lemma {:induction false} RecentMembers(entries: seq<Entry>, since: int)
    ensures forall e :: e in Recent(entries, since) <==> e in entries && e.day >= since
  {
    if entries != [] {
      RecentMembers(entries[1..], since);
      assert forall e :: e in entries <==> e == entries[0] || e in entries[1..];
    }
  }

  /** The types of the user's rows in a window. */
  function KindsIn(w: seq<Entry>, userId: int): (ks: set<string>) {
    set e | e in w && e.userId == userId :: e.kind
  }

  /** The weekly report: for every type the user logged in the window, the
      mean of the values logged under it there; types with no row in the
      window are absent. */
  function WeeklyReport(entries: seq<Entry>, userId: int, today: int): (m: map<string, real>) {
    var w := Recent(entries, today - WeeklyLookback);
    map k | k in KindsIn(w, userId) ::
      assert Count(w, userId, k) > 0 by { WindowCountPositive(w, userId, k); }
      Total(w, userId, k) / (Count(w, userId, k) as real)
  }

  /** A type is reported exactly when the user has a row of that type dated
      on or after `today - 7`. */
  lemma WeeklyReportKeys(entries: seq<Entry>, userId: int, today: int, kind: string)
    ensures kind in WeeklyReport(entries, userId, today) <==>
      exists e :: e in entries && Matches(e, userId, kind) && e.day >= today - WeeklyLookback
  {
    var w := Recent(entries, today - WeeklyLookback);
    RecentMembers(entries, today - WeeklyLookback);
    if kind in WeeklyReport(entries, userId, today) {
      var e :| e in w && e.userId == userId && e.kind == kind;
      assert Matches(e, userId, kind);
    }
  }

  /** Each reported mean lies between the smallest and the largest value
      logged under its type in the window. */
  lemma WeeklyAverageWithinRange(entries: seq<Entry>, userId: int, today: int, kind: string, lo: real, hi: real)
    requires kind in WeeklyReport(entries, userId, today)
    requires forall e :: e in entries && Matches(e, userId, kind) && e.day >= today - WeeklyLookback ==> lo <= e.value <= hi
    ensures lo <= WeeklyReport(entries, userId, today)[kind] <= hi
  {
    var w := Recent(entries, today - WeeklyLookback);
    WindowWithinBounds(entries, userId, today - WeeklyLookback, kind, lo, hi);
    WindowCountPositive(w, userId, kind);
    MeanWithinBounds(lo, hi, Count(w, userId, kind), Total(w, userId, kind));
  }

  /** The window total lies between `lo` and `hi` times the window count
      when every value of the type in the window does. */
  lemma WindowWithinBounds(entries: seq<Entry>, userId: int, since: int, kind: string, lo: real, hi: real)
    requires forall e :: e in entries && Matches(e, userId, kind) && e.day >= since ==> lo <= e.value <= hi
    ensures Times(lo, Count(Recent(entries, since), userId, kind)) <= Total(Recent(entries, since), userId, kind)
    ensures Total(Recent(entries, since), userId, kind) <= Times(hi, Count(Recent(entries, since), userId, kind))
  {
    RecentValuesWithinBounds(entries, userId, since, kind, lo, hi);
    TotalWithinBounds(Recent(entries, since), userId, kind, lo, hi);
  }

  lemma RecentValuesWithinBounds(entries: seq<Entry>, userId: int, since: int, kind: string, lo: real, hi: real)
    requires forall e :: e in entries && Matches(e, userId, kind) && e.day >= since ==> lo <= e.value <= hi
    ensures forall i :: 0 <= i < |Recent(entries, since)| && Matches(Recent(entries, since)[i], userId, kind) ==>
      lo <= Recent(entries, since)[i].value <= hi
  {
    var w := Recent(entries, since);
    RecentMembers(entries, since);
    forall i | 0 <= i < |w| && Matches(w[i], userId, kind)
      ensures lo <= w[i].value <= hi
    {
      assert w[i] in w;
    }
  }

  /** Every type of the user's rows in a window has a positive count there. */
  lemma WindowCountPositive(w: seq<Entry>, userId: int, kind: string)
    requires kind in KindsIn(w, userId)
    ensures Count(w, userId, kind) > 0
  {
    var e :| e in w && e.userId == userId && e.kind == kind;
    assert Matches(e, userId, kind);
    CountPositive(w, userId, kind);
  }

  /** A sum of `n` values between `lo` and `hi`, divided by `n`, lies
      between `lo` and `hi`. */
  lemma MeanWithinBounds(lo: real, hi: real, n: nat, t: real)
    requires n > 0
    requires Times(lo, n) <= t <= Times(hi, n)
    ensures lo <= t / (n as real) <= hi
  {
    TimesIsProduct(lo, n);
    TimesIsProduct(hi, n);
    assert t / (n as real) * (n as real) == t;
  }

  /** A row dated before `today - 7` does not change the weekly report. */
  lemma WeeklyReportIgnoresStaleRow(entries: seq<Entry>, e: Entry, userId: int, today: int)
    requires e.day < today - WeeklyLookback
    ensures WeeklyReport(entries + [e], userId, today) == WeeklyReport(entries, userId, today)
  {
    RecentAppendStale(entries, e, today - WeeklyLookback);
  }

  lemma {:induction false} RecentAppendStale(entries: seq<Entry>, e: Entry, since: int)
    requires e.day < since
    ensures Recent(entries + [e], since) == Recent(entries, since)
  {
    if entries == [] {
      assert Recent([e], since) == [] + Recent([], since);
    } else {
      assert (entries + [e])[1..] == entries[1..] + [e];
      RecentAppendStale(entries[1..], e, since);
    }
  }
}
