/** `build_throughput_report`: completed assignments inside a trailing
    window of `days`, counted per day and per reviewer, with cycle-time
    statistics. Timestamps are day counts on one clock, so the calendar
    day of a completion, `completed_at.date()`, is the whole part of its
    timestamp; `daily_counts` is keyed by that day number, which stands
    for the day's ISO date string. */
module Throughput {
  import opened Sorting
  import opened Grouping
  import opened Aggregates

  datatype CompletedAssignment = CompletedAssignment(reviewer: string, program: string, assignedAt: real, completedAt: real)

  datatype ThroughputReviewer = ThroughputReviewer(reviewer: string, completed: int, avgCycleDays: real)

  datatype ThroughputReport = ThroughputReport(
    totalCompleted: int, avgCycleDays: real, minCycleDays: real, maxCycleDays: real,
    dailyCounts: map<int, int>,
    reviewerStats: seq<ThroughputReviewer>)

  /** Not skipped by `if completed_at < cutoff: continue`. */
  predicate InWindow(a: CompletedAssignment, now: real, days: int) {
    !(a.completedAt < now - days as real)
  }

  /** The day number of a timestamp: `date()` of it. */
  function Day(t: real): int {
    t.Floor
  }

  function Cycle(a: CompletedAssignment): real {
    a.completedAt - a.assignedAt
  }

  /** The assignments the loop does not skip, in order. */
  function Kept(items: seq<CompletedAssignment>, now: real, days: int): seq<CompletedAssignment> {
    if items == [] then []
    else
      var last := items[|items| - 1];
      Kept(items[..|items| - 1], now, days) + (if InWindow(last, now, days) then [last] else [])
  }

  /** `cycles` */
  function Cycles(kept: seq<CompletedAssignment>): seq<real> {
    if kept == [] then [] else Cycles(kept[..|kept| - 1]) + [Cycle(kept[|kept| - 1])]
  }

  function DayKeys(kept: seq<CompletedAssignment>): seq<int> {
    if kept == [] then [] else DayKeys(kept[..|kept| - 1]) + [Day(kept[|kept| - 1].completedAt)]
  }

  function AssigneeOf(a: CompletedAssignment): string {
    a.reviewer
  }

  function Names(kept: seq<CompletedAssignment>): seq<string> {
    KeysOf(kept, AssigneeOf)
  }

  /** The cycle times of one reviewer's assignments, in order. */
  function ReviewerCycles(kept: seq<CompletedAssignment>, name: string): seq<real> {
    if kept == [] then []
    else
      var last := kept[|kept| - 1];
      ReviewerCycles(kept[..|kept| - 1], name) + (if last.reviewer == name then [Cycle(last)] else [])
  }

  /** One reviewer's line of `reviewer_stats`. */
  function StatFor(kept: seq<CompletedAssignment>, name: string): ThroughputReviewer {
    ThroughputReviewer(name, Occurrences(Names(kept), name), Mean(ReviewerCycles(kept, name)))
  }

  function StatsList(kept: seq<CompletedAssignment>, names: seq<string>): seq<ThroughputReviewer> {
    if names == [] then [] else StatsList(kept, names[..|names| - 1]) + [StatFor(kept, names[|names| - 1])]
  }

  /** `sort(key=completed, reverse=True)` */
  predicate CompletedBefore(a: ThroughputReviewer, b: ThroughputReviewer) {
    a.completed > b.completed
  }

  function DailyMap(kept: seq<CompletedAssignment>): map<int, int> {
    var ks := DayKeys(kept);
    map k | k in ks :: Occurrences(ks, k)
  }

  /** The report `build_throughput_report` returns. */
  function Report(items: seq<CompletedAssignment>, now: real, days: int): ThroughputReport {
    var kept := Kept(items, now, days);
    var cycles := Cycles(kept);
    ThroughputReport(
      |cycles|,
      Mean(cycles),
      if cycles != [] then MinReal(cycles) else 0.0,
      if cycles != [] then MaxReal(cycles) else 0.0,
      DailyMap(kept),
      SortBy(StatsList(kept, Distinct(Names(kept))), CompletedBefore))
  }

  // ---------------------------------------------------------------------
  // Properties of the report

  lemma {:induction false} KeptIsWindow(items: seq<CompletedAssignment>, now: real, days: int)
    ensures |Kept(items, now, days)| <= |items|
    ensures forall a :: a in Kept(items, now, days) <==> a in items && InWindow(a, now, days)
  {
    if items != [] {
      var init := items[..|items| - 1];
      KeptIsWindow(init, now, days);
      assert items == init + [items[|items| - 1]];
    }
  }

  lemma {:induction false} Lengths(kept: seq<CompletedAssignment>)
    ensures |Cycles(kept)| == |kept| == |DayKeys(kept)| == |Names(kept)|
  {
    if kept != [] {
      Lengths(kept[..|kept| - 1]);
    }
  }

  lemma {:induction false} CyclesAt(kept: seq<CompletedAssignment>)
    ensures |Cycles(kept)| == |kept|
    ensures forall i :: 0 <= i < |kept| ==> Cycles(kept)[i] == Cycle(kept[i])
  {
    if kept != [] {
      CyclesAt(kept[..|kept| - 1]);
    }
  }

  lemma {:induction false} DayKeysAt(kept: seq<CompletedAssignment>)
    ensures |DayKeys(kept)| == |kept|
    ensures forall i :: 0 <= i < |kept| ==> DayKeys(kept)[i] == Day(kept[i].completedAt)
  {
    if kept != [] {
      DayKeysAt(kept[..|kept| - 1]);
    }
  }

  /** A reviewer's cycle times are as many as its assignments, and each is
      one of all the cycle times. */
  lemma {:induction false} ReviewerCyclesShape(kept: seq<CompletedAssignment>, name: string)
    ensures |ReviewerCycles(kept, name)| == Occurrences(Names(kept), name)
    ensures forall c :: c in ReviewerCycles(kept, name) ==> c in Cycles(kept)
  {
    if kept != [] {
      var init := kept[..|kept| - 1];
      ReviewerCyclesShape(init, name);
      assert Names(kept) == Names(init) + [kept[|kept| - 1].reviewer];
      assert Cycles(kept) == Cycles(init) + [Cycle(kept[|kept| - 1])];
    }
  }

  /** The report covers exactly the assignments completed at or after
      `now - days`: `total_completed` counts them. */
  lemma TotalIsWindow(items: seq<CompletedAssignment>, now: real, days: int)
    ensures var r := Report(items, now, days);
            && r.totalCompleted == |Kept(items, now, days)| <= |items|
            && (forall a :: a in Kept(items, now, days) <==> a in items && a.completedAt >= now - days as real)
  {
    KeptIsWindow(items, now, days);
    Lengths(Kept(items, now, days));
  }

  /** `daily_counts` has a key exactly for each day with a completion in
      the window. */
  lemma DailyKeysAreDays(kept: seq<CompletedAssignment>)
    ensures forall k :: k in DailyMap(kept) <==> exists a :: a in kept && Day(a.completedAt) == k
  {
    var ks := DayKeys(kept);
    DayKeysAt(kept);
    forall k
      ensures k in ks <==> exists a :: a in kept && Day(a.completedAt) == k
    {
      if k in ks {
        var i :| 0 <= i < |ks| && ks[i] == k;
        assert kept[i] in kept;
      }
    }
  }

  /** `daily_counts` has a key for each day with a completion in the
      window, and its counts, taken in insertion order, add up to
      `total_completed`. */
  lemma DailyCountsSum(items: seq<CompletedAssignment>, now: real, days: int)
    ensures var r := Report(items, now, days);
            var kept := Kept(items, now, days);
            && (forall k :: k in r.dailyCounts <==> exists a :: a in kept && Day(a.completedAt) == k)
            && SumValues(r.dailyCounts, Distinct(DayKeys(kept))) == r.totalCompleted
  {
    var kept := Kept(items, now, days);
    DailyKeysAreDays(kept);
    DailySum(kept);
    Lengths(kept);
  }

  lemma DailySum(kept: seq<CompletedAssignment>)
    ensures SumValues(DailyMap(kept), Distinct(DayKeys(kept))) == |kept|
  {
    var ks := DayKeys(kept);
    Lengths(kept);
    DistinctKeys(ks);
    var m := DailyMap(kept);
    forall k | k in Distinct(ks)
      ensures k in m && m[k] == multiset(ks)[k]
    {
      assert k in ks;
    }
    SumValuesOfCounts(m, Distinct(ks), ks);
    SumCountsIsLength(Distinct(ks), ks);
  }

  lemma {:induction false} StatsListShape(kept: seq<CompletedAssignment>, names: seq<string>)
    ensures |StatsList(kept, names)| == |names|
    ensures forall i :: 0 <= i < |names| ==> StatsList(kept, names)[i] == StatFor(kept, names[i])
  {
    if names != [] {
      StatsListShape(kept, names[..|names| - 1]);
    }
  }

  function CompletedOf(s: ThroughputReviewer): int {
    s.completed
  }

  function ReviewerOf(s: ThroughputReviewer): string {
    s.reviewer
  }

  lemma {:induction false} StatsListSum(kept: seq<CompletedAssignment>, names: seq<string>)
    ensures SumBy(StatsList(kept, names), CompletedOf) == SumCounts(names, Names(kept))
  {
    if names != [] {
      StatsListSum(kept, names[..|names| - 1]);
      var l := StatsList(kept, names);
      assert l[..|l| - 1] == StatsList(kept, names[..|names| - 1]);
    }
  }

  /** The per-reviewer completed counts add up to `total_completed`. */
  lemma ReviewerCountsSum(items: seq<CompletedAssignment>, now: real, days: int)
    ensures var r := Report(items, now, days);
            SumBy(r.reviewerStats, CompletedOf) == r.totalCompleted
  {
    var kept := Kept(items, now, days);
    var names := Distinct(Names(kept));
    var l := StatsList(kept, names);
    DistinctKeys(Names(kept));
    Lengths(kept);
    SumCountsIsLength(names, Names(kept));
    StatsListSum(kept, names);
    SumByPermutation(SortBy(l, CompletedBefore), l, CompletedOf);
  }

  /** An empty window gives zero statistics; otherwise the average cycle
      time lies between the shortest and the longest, and those are the
      extremes of the window's cycle times. */
  lemma CycleStatistics(items: seq<CompletedAssignment>, now: real, days: int)
    ensures var r := Report(items, now, days);
            var kept := Kept(items, now, days);
            && (kept == [] ==> r.totalCompleted == 0 && r.avgCycleDays == r.minCycleDays == r.maxCycleDays == 0.0)
            && (kept != [] ==>
                  && r.minCycleDays <= r.avgCycleDays <= r.maxCycleDays
                  && (forall a :: a in kept ==> r.minCycleDays <= Cycle(a) <= r.maxCycleDays)
                  && (exists a :: a in kept && Cycle(a) == r.minCycleDays)
                  && (exists a :: a in kept && Cycle(a) == r.maxCycleDays))
  {
    var kept := Kept(items, now, days);
    var cycles := Cycles(kept);
    CyclesAt(kept);
    if kept != [] {
      MeanBetweenMinAndMax(cycles);
      MinRealIsMin(cycles);
      MaxRealIsMax(cycles);
      forall a | a in kept
        ensures MinReal(cycles) <= Cycle(a) <= MaxReal(cycles)
      {
        var i :| 0 <= i < |kept| && kept[i] == a;
        assert cycles[i] in cycles;
      }
      var i :| 0 <= i < |cycles| && cycles[i] == MinReal(cycles);
      var j :| 0 <= j < |cycles| && cycles[j] == MaxReal(cycles);
      assert kept[i] in kept && kept[j] in kept;
    }
  }

  lemma CompletedBeforeIsStrictWeakOrder()
    ensures StrictWeakOrder(CompletedBefore)
  {
  }

  /** `reviewer_stats` is ordered by completions, most first, and no
      reviewer has two lines. */
  lemma ReviewerStatsOrdered(items: seq<CompletedAssignment>, now: real, days: int)
    ensures var r := Report(items, now, days);
            && SortedBy(r.reviewerStats, CompletedBefore)
            && (forall i, j :: 0 <= i < j < |r.reviewerStats| ==> r.reviewerStats[i].reviewer != r.reviewerStats[j].reviewer)
  {
    var kept := Kept(items, now, days);
    var names := Distinct(Names(kept));
    var l := StatsList(kept, names);
    CompletedBeforeIsStrictWeakOrder();
    SortBySorted(l, CompletedBefore);
    DistinctKeys(Names(kept));
    StatsListShape(kept, names);
    KeysStayDistinct(l, names, ReviewerOf, SortBy(l, CompletedBefore));
  }

  /** Each line of `reviewer_stats` is its reviewer's count and mean cycle
      time; the reviewer has at least one completion in the window and the
      mean lies within the window's extremes. */
  lemma ReviewerStatsLines(items: seq<CompletedAssignment>, now: real, days: int)
    ensures var r := Report(items, now, days);
            var kept := Kept(items, now, days);
            forall s :: s in r.reviewerStats ==>
              && s == StatFor(kept, s.reviewer)
              && s.completed >= 1
              && r.minCycleDays <= s.avgCycleDays <= r.maxCycleDays
  {
    var kept := Kept(items, now, days);
    var sorted := SortBy(StatsList(kept, Distinct(Names(kept))), CompletedBefore);
    Lengths(kept);
    forall s | s in sorted
      ensures s == StatFor(kept, s.reviewer) && s.completed >= 1
      ensures MinReal(Cycles(kept)) <= s.avgCycleDays <= MaxReal(Cycles(kept))
    {
      StatLine(kept, s);
    }
  }

  lemma StatLine(kept: seq<CompletedAssignment>, s: ThroughputReviewer)
    requires s in SortBy(StatsList(kept, Distinct(Names(kept))), CompletedBefore)
    ensures s == StatFor(kept, s.reviewer) && s.completed >= 1
    ensures MinReal(Cycles(kept)) <= s.avgCycleDays <= MaxReal(Cycles(kept))
  {
    var names := Distinct(Names(kept));
    var l := StatsList(kept, names);
    DistinctKeys(Names(kept));
    StatsListShape(kept, names);
    SortByMembers(l, CompletedBefore, s);
    var i :| 0 <= i < |l| && l[i] == s;
    assert names[i] in Names(kept);
    StatWithinExtremes(kept, s.reviewer);
  }

  lemma StatWithinExtremes(kept: seq<CompletedAssignment>, name: string)
    requires name in Names(kept)
    ensures Occurrences(Names(kept), name) >= 1
    ensures MinReal(Cycles(kept)) <= Mean(ReviewerCycles(kept, name)) <= MaxReal(Cycles(kept))
  {
    var rc, cycles := ReviewerCycles(kept, name), Cycles(kept);
    ReviewerCyclesShape(kept, name);
    assert rc != [];
    MeanBetweenMinAndMax(rc);
    MinRealIsMin(rc);
    MaxRealIsMax(rc);
    MinRealIsMin(cycles);
    MaxRealIsMax(cycles);
    assert MinReal(rc) in cycles && MaxReal(rc) in cycles;
  }

  /** Every reviewer with a completion in the window has a line. */
  lemma EveryReviewerHasLine(items: seq<CompletedAssignment>, now: real, days: int,
                             a: CompletedAssignment)
    requires a in Kept(items, now, days)
    ensures var kept := Kept(items, now, days);
            StatFor(kept, a.reviewer) in Report(items, now, days).reviewerStats
  {
    var kept := Kept(items, now, days);
    var names := Distinct(Names(kept));
    var l := StatsList(kept, names);
    KeysOfAt(kept, AssigneeOf);
    DistinctKeys(Names(kept));
    StatsListShape(kept, names);
    var i :| 0 <= i < |kept| && kept[i] == a;
    assert Names(kept)[i] == a.reviewer;
    assert a.reviewer in names;
    var k :| 0 <= k < |names| && names[k] == a.reviewer;
    SortByMembers(l, CompletedBefore, l[k]);
  }

  // ---------------------------------------------------------------------
  // The loop

  /** One entry of `reviewer_totals`. */
  datatype Tally = Tally(total: int, cycleSum: real)

  /** `reviewer_totals.setdefault(name, {"total": 0, "cycle_sum": 0.0})` */
  function Lookup(totals: map<string, Tally>, name: string): Tally {
    if name in totals then totals[name] else Tally(0, 0.0)
  }

  /** The entry after one more completion taking `cycle` days. */
  function Bump(t: Tally, cycle: real): Tally {
    Tally(t.total + 1, t.cycleSum + cycle)
  }

  /** `daily_counts.get(day, 0)` */
  function CountOf(daily: map<int, int>, day: int): int {
    if day in daily then daily[day] else 0
  }

  /** `daily_counts` after the kept assignments `kept`. */
  ghost predicate DailyMatch(kept: seq<CompletedAssignment>, daily: map<int, int>) {
    forall k :: (k in daily <==> k in DayKeys(kept))
                && (k in daily ==> daily[k] == Occurrences(DayKeys(kept), k))
  }

  ghost predicate EntriesMatch(kept: seq<CompletedAssignment>, totals: map<string, Tally>) {
    forall n :: n in totals ==>
      totals[n] == Tally(Occurrences(Names(kept), n), SumReal(ReviewerCycles(kept, n)))
  }

  /** The state of the loop once it has kept the assignments `kept`. */
  ghost predicate Accumulated(kept: seq<CompletedAssignment>,
                              daily: map<int, int>, order: seq<string>, totals: map<string, Tally>, cycles: seq<real>)
  {
    && DailyMatch(kept, daily)
    && order == Distinct(Names(kept))
    && KeysMatch(order, totals)
    && EntriesMatch(kept, totals)
    && cycles == Cycles(kept)
  }

  /** The dict's keys are the names in `order`. */
  ghost predicate KeysMatch(order: seq<string>, totals: map<string, Tally>) {
    forall n :: n in totals <==> n in order
  }

  lemma KeysStep(order: seq<string>, totals: map<string, Tally>, name: string, t: Tally)
    requires KeysMatch(order, totals)
    ensures KeysMatch(if name in totals then order else order + [name], totals[name := t])
  {
  }

  lemma DailyStep(kept: seq<CompletedAssignment>, daily: map<int, int>, a: CompletedAssignment)
    requires DailyMatch(kept, daily)
    ensures var k := Day(a.completedAt);
            DailyMatch(kept + [a], daily[k := CountOf(daily, k) + 1])
  {
    var next := kept + [a];
    assert next[..|next| - 1] == kept;
    assert DayKeys(next) == DayKeys(kept) + [Day(a.completedAt)];
  }

  lemma Absent(kept: seq<CompletedAssignment>, name: string)
    requires name !in Names(kept)
    ensures Occurrences(Names(kept), name) == 0 && ReviewerCycles(kept, name) == []
  {
    ReviewerCyclesShape(kept, name);
  }

  lemma EntryStep(kept: seq<CompletedAssignment>, a: CompletedAssignment, n: string)
    ensures Occurrences(Names(kept + [a]), n) == Occurrences(Names(kept), n) + (if n == a.reviewer then 1 else 0)
    ensures SumReal(ReviewerCycles(kept + [a], n))
            == SumReal(ReviewerCycles(kept, n)) + (if n == a.reviewer then Cycle(a) else 0.0)
  {
    var next := kept + [a];
    assert next[..|next| - 1] == kept;
    assert Names(next) == Names(kept) + [a.reviewer];
    var rc := ReviewerCycles(kept, n);
    if n == a.reviewer {
      assert ReviewerCycles(next, n) == rc + [Cycle(a)];
      assert (rc + [Cycle(a)])[..|rc|] == rc;
    } else {
      assert ReviewerCycles(next, n) == rc + [];
      assert rc + [] == rc;
    }
  }

  /** The entry of one name after the assignment `a` was added. */
  lemma EntryAfter(kept: seq<CompletedAssignment>, totals: map<string, Tally>, a: CompletedAssignment,
                   totals': map<string, Tally>, n: string)
    requires EntriesMatch(kept, totals)
    requires a.reviewer !in totals ==> a.reviewer !in Names(kept)
    requires totals' == totals[a.reviewer := Bump(Lookup(totals, a.reviewer), Cycle(a))]
    requires n in totals'
    ensures totals'[n] == Tally(Occurrences(Names(kept + [a]), n), SumReal(ReviewerCycles(kept + [a], n)))
  {
    EntryStep(kept, a, n);
    if n == a.reviewer {
      if a.reviewer !in totals {
        Absent(kept, a.reviewer);
      }
    } else {
      assert totals'[n] == totals[n];
    }
  }

  lemma EntriesStep(kept: seq<CompletedAssignment>, totals: map<string, Tally>, a: CompletedAssignment,
                    totals': map<string, Tally>)
    requires EntriesMatch(kept, totals)
    requires a.reviewer !in totals ==> a.reviewer !in Names(kept)
    requires totals' == totals[a.reviewer := Bump(Lookup(totals, a.reviewer), Cycle(a))]
    ensures EntriesMatch(kept + [a], totals')
  {
    forall n | n in totals'
      ensures totals'[n] == Tally(Occurrences(Names(kept + [a]), n), SumReal(ReviewerCycles(kept + [a], n)))
    {
      EntryAfter(kept, totals, a, totals', n);
    }
  }

  lemma OrderStep(kept: seq<CompletedAssignment>, a: CompletedAssignment)
    ensures var order := Distinct(Names(kept));
            Distinct(Names(kept + [a])) == if a.reviewer in order then order else order + [a.reviewer]
  {
    var next := kept + [a];
    assert next[..|next| - 1] == kept;
    var names := Names(kept);
    assert Names(next) == names + [a.reviewer];
    assert (names + [a.reviewer])[..|names|] == names;
  }

  lemma AccumulateStep(kept: seq<CompletedAssignment>,
                       daily: map<int, int>, order: seq<string>, totals: map<string, Tally>, cycles: seq<real>,
                       a: CompletedAssignment,
                       daily': map<int, int>, order': seq<string>, totals': map<string, Tally>, cycles': seq<real>)
    requires Accumulated(kept, daily, order, totals, cycles)
    requires daily' == daily[Day(a.completedAt) := CountOf(daily, Day(a.completedAt)) + 1]
    requires order' == if a.reviewer in totals then order else order + [a.reviewer]
    requires totals' == totals[a.reviewer := Bump(Lookup(totals, a.reviewer), Cycle(a))]
    requires cycles' == cycles + [Cycle(a)]
    ensures Accumulated(kept + [a], daily', order', totals', cycles')
  {
    var next := kept + [a];
    assert next[..|next| - 1] == kept;
    DailyStep(kept, daily, a);
    DistinctKeys(Names(kept));
    OrderStep(kept, a);
    EntriesStep(kept, totals, a, totals');
    KeysStep(order, totals, a.reviewer, totals'[a.reviewer]);
  }

  /** The body of the loop for an assignment inside the window. */
  method Observe(ghost kept: seq<CompletedAssignment>, assignment: CompletedAssignment,
                 daily: map<int, int>, order: seq<string>, totals: map<string, Tally>, cycles: seq<real>)
    returns (daily': map<int, int>, order': seq<string>, totals': map<string, Tally>, cycles': seq<real>)
    requires Accumulated(kept, daily, order, totals, cycles)
    ensures Accumulated(kept + [assignment], daily', order', totals', cycles')
  {
    var cycleDays := Cycle(assignment);
    cycles' := cycles + [cycleDays];
    var day := Day(assignment.completedAt);
    daily' := daily[day := CountOf(daily, day) + 1];

    var entry := Lookup(totals, assignment.reviewer);
    order' := order;
    if assignment.reviewer !in totals {
      order' := order + [assignment.reviewer];
    }
    totals' := totals[assignment.reviewer := Bump(entry, cycleDays)];
    AccumulateStep(kept, daily, order, totals, cycles, assignment, daily', order', totals', cycles');
  }

  /** The `for assignment in assignments` loop. */
  method Accumulate(items: seq<CompletedAssignment>, now: real, days: int)
    returns (daily: map<int, int>, order: seq<string>, totals: map<string, Tally>, cycles: seq<real>)
    ensures Accumulated(Kept(items, now, days), daily, order, totals, cycles)
  {
    var cutoff := now - days as real;
    daily, order, totals, cycles := map[], [], map[], [];
    for i := 0 to |items|
      invariant Accumulated(Kept(items[..i], now, days), daily, order, totals, cycles)
    {
      var assignment := items[i];
      assert items[..i + 1][..i] == items[..i];
      if assignment.completedAt < cutoff {
        assert Kept(items[..i + 1], now, days) == Kept(items[..i], now, days);
        continue;
      }
      assert Kept(items[..i + 1], now, days) == Kept(items[..i], now, days) + [assignment];
      daily, order, totals, cycles := Observe(Kept(items[..i], now, days), assignment, daily, order, totals, cycles);
    }
    assert items[..|items|] == items;
  }

  lemma DailyMatchMap(kept: seq<CompletedAssignment>, daily: map<int, int>)
    requires DailyMatch(kept, daily)
    ensures daily == DailyMap(kept)
  {
    var m := DailyMap(kept);
    assert forall k :: k in daily <==> k in m;
    assert forall k :: k in daily ==> daily[k] == m[k];
  }

  /** `build_throughput_report` */
  method BuildThroughputReport(items: seq<CompletedAssignment>, now: real, days: int)
    returns (report: ThroughputReport)
    ensures report == Report(items, now, days)
  {
    var daily, order, totals, cycles := Accumulate(items, now, days);
    ghost var kept := Kept(items, now, days);
    DailyMatchMap(kept, daily);
    var total := |cycles|;
    var avgCycle := if total > 0 then SumReal(cycles) / total as real else 0.0;
    var minCycle := if cycles != [] then MinReal(cycles) else 0.0;
    var maxCycle := if cycles != [] then MaxReal(cycles) else 0.0;

    var reviewerStats: seq<ThroughputReviewer> := [];
    for k := 0 to |order|
      invariant reviewerStats == StatsList(kept, order[..k])
    {
      var t := totals[order[k]];
      ReviewerCyclesShape(kept, order[k]);
      reviewerStats := reviewerStats + [ThroughputReviewer(order[k], t.total, if t.total != 0 then t.cycleSum / t.total as real else 0.0)];
      assert order[..k + 1][..k] == order[..k];
    }
    assert order[..|order|] == order;
    reviewerStats := SortBy(reviewerStats, CompletedBefore);
    report := ThroughputReport(total, avgCycle, minCycle, maxCycle, daily, reviewerStats);
  }
}
