/** `bucket_age` and `build_backlog_report`: active assignments rolled up
    by age bucket and by reviewer. Timestamps are day counts on one
    clock, so an assignment's age is `now - assigned_at`. */
module Backlog {
  import opened Sorting
  import opened Grouping
  import opened Aggregates

  datatype BacklogAssignment = BacklogAssignment(reviewer: string, applicant: string, program: string, assignedAt: real)

  datatype ReviewerBacklog = ReviewerBacklog(reviewer: string, total: int, stale: int, oldestAgeDays: real)

  datatype BacklogReport = BacklogReport(
    total: int, stale: int, avgAgeDays: real, oldestAgeDays: real,
    bucketCounts: map<Bucket, int>,
    reviewerStats: seq<ReviewerBacklog>,
    oldestAssignments: seq<(BacklogAssignment, real)>)

  /** The four age buckets, youngest first; `Label` is the key each has
      in the report's `bucket_counts`. */
  datatype Bucket = Days0To2 | Days3To5 | Days6To10 | Days11Plus

  const Buckets: seq<Bucket> := [Days0To2, Days3To5, Days6To10, Days11Plus]

  function Label(b: Bucket): string {
    match b
    case Days0To2 => "0-2"
    case Days3To5 => "3-5"
    case Days6To10 => "6-10"
    case Days11Plus => "11+"
  }

  /** The bucket `bucket_age` chooses. */
  function BucketOf(age: real): Bucket {
    if age < 3.0 then Days0To2
    else if age < 6.0 then Days3To5
    else if age < 11.0 then Days6To10
    else Days11Plus
  }

  /** How many of the thresholds 3, 6 and 11 days the age has reached. */
  function ThresholdsReached(age: real): nat {
    (if age >= 3.0 then 1 else 0) + (if age >= 6.0 then 1 else 0) + (if age >= 11.0 then 1 else 0)
  }

  /** `bucket_age`: the label of the bucket after as many thresholds as the
      age has reached. */
  function BucketAge(age: real): (key: string)
    ensures key in {"0-2", "3-5", "6-10", "11+"}
    ensures ThresholdsReached(age) < |Buckets| && key == Label(Buckets[ThresholdsReached(age)])
  {
    Label(BucketOf(age))
  }

  /** The bucket is the one after as many thresholds as the age has
      reached, so the buckets are consecutive and an older assignment never
      falls in an earlier bucket. */
  lemma BucketAgeByThresholds(age: real)
    ensures BucketOf(age) == Buckets[ThresholdsReached(age)]
    ensures forall older: real :: older >= age ==> ThresholdsReached(age) <= ThresholdsReached(older)
  {
  }

  /** The boundary cases: an age equal to a threshold falls in the later
      bucket. */
  lemma BucketAgeBoundaries()
    ensures BucketAge(0.0) == "0-2" && BucketAge(2.9) == "0-2"
    ensures BucketAge(3.0) == "3-5" && BucketAge(5.9) == "3-5"
    ensures BucketAge(6.0) == "6-10" && BucketAge(10.9) == "6-10"
    ensures BucketAge(11.0) == "11+"
  {
  }

  function Age(a: BacklogAssignment, now: real): real {
    now - a.assignedAt
  }

  predicate IsStale(a: BacklogAssignment, now: real, staleDays: int) {
    Age(a, now) >= staleDays as real
  }

  /** `ages` */
  function Ages(items: seq<BacklogAssignment>, now: real): seq<real> {
    if items == [] then [] else Ages(items[..|items| - 1], now) + [Age(items[|items| - 1], now)]
  }

  /** The reviewer of every assignment, in order. */
  function AssigneeOf(a: BacklogAssignment): string {
    a.reviewer
  }

  function Names(items: seq<BacklogAssignment>): seq<string> {
    KeysOf(items, AssigneeOf)
  }

  /** The reviewer of every stale assignment, in order. */
  function StaleNames(items: seq<BacklogAssignment>, now: real, staleDays: int): seq<string> {
    if items == [] then []
    else
      var last := items[|items| - 1];
      StaleNames(items[..|items| - 1], now, staleDays) + (if IsStale(last, now, staleDays) then [last.reviewer] else [])
  }

  /** The bucket of every assignment, in order. */
  function BucketsOf(items: seq<BacklogAssignment>, now: real): seq<Bucket> {
    if items == [] then [] else BucketsOf(items[..|items| - 1], now) + [BucketOf(Age(items[|items| - 1], now))]
  }

  /** A reviewer's `oldest`: the running maximum of its ages from 0.0. */
  function OldestFor(items: seq<BacklogAssignment>, now: real, name: string): real {
    if items == [] then 0.0
    else
      var last, o := items[|items| - 1], OldestFor(items[..|items| - 1], now, name);
      if last.reviewer == name && Age(last, now) > o then Age(last, now) else o
  }

  /** `oldest_assignments` before sorting. */
  function Pairs(items: seq<BacklogAssignment>, now: real): seq<(BacklogAssignment, real)> {
    if items == [] then [] else Pairs(items[..|items| - 1], now) + [(items[|items| - 1], Age(items[|items| - 1], now))]
  }

  /** One reviewer's line of `reviewer_stats`. */
  function StatsFor(items: seq<BacklogAssignment>, now: real, staleDays: int, name: string): ReviewerBacklog {
    ReviewerBacklog(name, Occurrences(Names(items), name), Occurrences(StaleNames(items, now, staleDays), name),
                    OldestFor(items, now, name))
  }

  function StatsList(items: seq<BacklogAssignment>, now: real, staleDays: int, names: seq<string>): seq<ReviewerBacklog> {
    if names == [] then []
    else StatsList(items, now, staleDays, names[..|names| - 1]) + [StatsFor(items, now, staleDays, names[|names| - 1])]
  }

  /** `sort(key=(stale, total), reverse=True)` */
  predicate StatBefore(a: ReviewerBacklog, b: ReviewerBacklog) {
    a.stale > b.stale || (a.stale == b.stale && a.total > b.total)
  }

  /** `sort(key=age, reverse=True)` */
  predicate PairBefore(a: (BacklogAssignment, real), b: (BacklogAssignment, real)) {
    a.1 > b.1
  }

  function BucketMap(items: seq<BacklogAssignment>, now: real): map<Bucket, int> {
    var bs := BucketsOf(items, now);
    map[Days0To2 := Occurrences(bs, Days0To2), Days3To5 := Occurrences(bs, Days3To5),
        Days6To10 := Occurrences(bs, Days6To10), Days11Plus := Occurrences(bs, Days11Plus)]
  }

  /** The report `build_backlog_report` returns. */
  function Report(items: seq<BacklogAssignment>, now: real, staleDays: int): BacklogReport {
    var ages := Ages(items, now);
    BacklogReport(
      |ages|,
      |StaleNames(items, now, staleDays)|,
      Mean(ages),
      if ages != [] then MaxReal(ages) else 0.0,
      BucketMap(items, now),
      SortBy(StatsList(items, now, staleDays, Distinct(Names(items))), StatBefore),
      SortBy(Pairs(items, now), PairBefore))
  }

  // ---------------------------------------------------------------------
  // Properties of the report

  lemma {:induction false} Lengths(items: seq<BacklogAssignment>, now: real)
    ensures |Ages(items, now)| == |items| == |Names(items)| == |BucketsOf(items, now)| == |Pairs(items, now)|
  {
    if items != [] {
      Lengths(items[..|items| - 1], now);
    }
  }

  lemma {:induction false} AgesAt(items: seq<BacklogAssignment>, now: real)
    ensures |Ages(items, now)| == |items|
    ensures forall i :: 0 <= i < |items| ==> Ages(items, now)[i] == Age(items[i], now)
  {
    if items != [] {
      AgesAt(items[..|items| - 1], now);
    }
  }

  lemma {:induction false} PairsAt(items: seq<BacklogAssignment>, now: real)
    ensures |Pairs(items, now)| == |items|
    ensures forall i :: 0 <= i < |items| ==> Pairs(items, now)[i] == (items[i], Age(items[i], now))
  {
    if items != [] {
      PairsAt(items[..|items| - 1], now);
    }
  }

  /** Only a reviewer with an assignment has a count, a stale count or an
      oldest age other than zero. */
  lemma Absent(items: seq<BacklogAssignment>, now: real, staleDays: int, name: string)
    requires name !in Names(items)
    ensures Occurrences(Names(items), name) == 0 && Occurrences(StaleNames(items, now, staleDays), name) == 0
    ensures OldestFor(items, now, name) == 0.0
  {
    StaleNamesBound(items, now, staleDays);
    OldestForIsGreatest(items, now, name);
  }

  lemma SumOverBuckets(bs: seq<Bucket>)
    ensures SumCounts(Buckets, bs)
            == Occurrences(bs, Days0To2) + Occurrences(bs, Days3To5) + Occurrences(bs, Days6To10) + Occurrences(bs, Days11Plus)
  {
    var b3, b2, b1 := [Days0To2, Days3To5, Days6To10], [Days0To2, Days3To5], [Days0To2];
    assert Buckets[..3] == b3 && b3[..2] == b2 && b2[..1] == b1 && b1[..0] == [];
    assert SumCounts(Buckets, bs) == SumCounts(b3, bs) + Occurrences(bs, Days11Plus);
    assert SumCounts(b3, bs) == SumCounts(b2, bs) + Occurrences(bs, Days6To10);
    assert SumCounts(b2, bs) == SumCounts(b1, bs) + Occurrences(bs, Days3To5);
    assert SumCounts(b1, bs) == Occurrences(bs, Days0To2);
  }

  lemma AllBuckets()
    ensures forall b: Bucket :: b in Buckets
    ensures NoDuplicates(Buckets)
  {
    forall b: Bucket
      ensures b in Buckets
    {
      match b
      case Days0To2 => assert Buckets[0] == b;
      case Days3To5 => assert Buckets[1] == b;
      case Days6To10 => assert Buckets[2] == b;
      case Days11Plus => assert Buckets[3] == b;
    }
  }

  lemma BucketMapSums(items: seq<BacklogAssignment>, now: real)
    ensures var m := BucketMap(items, now);
            && m.Keys == {Days0To2, Days3To5, Days6To10, Days11Plus}
            && m[Days0To2] + m[Days3To5] + m[Days6To10] + m[Days11Plus] == |items|
  {
    var bs := BucketsOf(items, now);
    Lengths(items, now);
    AllBuckets();
    SumCountsIsLength(Buckets, bs);
    SumOverBuckets(bs);
  }

  /** Every assignment lands in exactly one of the four buckets. */
  lemma BucketsSumToTotal(items: seq<BacklogAssignment>, now: real, staleDays: int)
    ensures var r := Report(items, now, staleDays);
            && r.bucketCounts.Keys == {Days0To2, Days3To5, Days6To10, Days11Plus}
            && r.bucketCounts[Days0To2] + r.bucketCounts[Days3To5] + r.bucketCounts[Days6To10] + r.bucketCounts[Days11Plus]
               == r.total
  {
    Lengths(items, now);
    BucketMapSums(items, now);
  }

  lemma {:induction false} StaleNamesBound(items: seq<BacklogAssignment>, now: real, staleDays: int)
    ensures |StaleNames(items, now, staleDays)| <= |items|
    ensures |StaleNames(items, now, staleDays)| == |items| <==> forall a :: a in items ==> IsStale(a, now, staleDays)
    ensures forall n :: n in StaleNames(items, now, staleDays) ==> n in Names(items)
  {
    if items != [] {
      var init := items[..|items| - 1];
      StaleNamesBound(init, now, staleDays);
      assert items == init + [items[|items| - 1]];
    }
  }

  /** `stale` counts the assignments at least `stale_days` old: never more
      than `total`, and all of them exactly when every assignment is. */
  lemma StaleWithinTotal(items: seq<BacklogAssignment>, now: real, staleDays: int)
    ensures var r := Report(items, now, staleDays);
            && 0 <= r.stale <= r.total == |items|
            && (r.stale == r.total <==> forall a :: a in items ==> IsStale(a, now, staleDays))
  {
    StaleNamesBound(items, now, staleDays);
    Lengths(items, now);
  }

  /** `oldest_age_days` is the greatest age, or 0 without assignments. */
  lemma OldestIsGreatestAge(items: seq<BacklogAssignment>, now: real, staleDays: int)
    ensures var r := Report(items, now, staleDays);
            && (forall a :: a in items ==> Age(a, now) <= r.oldestAgeDays)
            && (items == [] ==> r.oldestAgeDays == 0.0)
            && (items != [] ==> exists a :: a in items && Age(a, now) == r.oldestAgeDays)
  {
    AgesAt(items, now);
    var ages := Ages(items, now);
    if items != [] {
      MaxRealIsMax(ages);
      forall a | a in items ensures Age(a, now) <= MaxReal(ages) {
        var i :| 0 <= i < |items| && items[i] == a;
        assert ages[i] in ages;
      }
      var i :| 0 <= i < |ages| && ages[i] == MaxReal(ages);
      assert items[i] in items;
    }
  }

  /** The average age lies between the youngest assignment's age and the
      oldest age; with nothing assigned it is 0. */
  lemma AverageAgeBetween(items: seq<BacklogAssignment>, now: real, staleDays: int)
    ensures var r := Report(items, now, staleDays);
            && (items == [] ==> r.avgAgeDays == 0.0)
            && (items != [] ==> exists a :: a in items && Age(a, now) <= r.avgAgeDays <= r.oldestAgeDays)
  {
    AgesAt(items, now);
    var ages := Ages(items, now);
    if items != [] {
      MeanBetweenMinAndMax(ages);
      MinRealIsMin(ages);
      var i :| 0 <= i < |ages| && ages[i] == MinReal(ages);
      assert items[i] in items;
    }
  }

  /** A reviewer's oldest age is at least 0 and at least each of its ages,
      and is one of them unless it is the 0.0 it started from. */
  lemma {:induction false} OldestForIsGreatest(items: seq<BacklogAssignment>, now: real, name: string)
    ensures OldestFor(items, now, name) >= 0.0
    ensures forall a :: a in items && a.reviewer == name ==> Age(a, now) <= OldestFor(items, now, name)
    ensures OldestFor(items, now, name) == 0.0
            || exists a :: a in items && a.reviewer == name && Age(a, now) == OldestFor(items, now, name)
    ensures name !in Names(items) ==> OldestFor(items, now, name) == 0.0
  {
    if items != [] {
      var init := items[..|items| - 1];
      OldestForIsGreatest(init, now, name);
      assert items == init + [items[|items| - 1]];
    }
  }

  lemma {:induction false} StatsListShape(items: seq<BacklogAssignment>, now: real, staleDays: int, names: seq<string>)
    ensures |StatsList(items, now, staleDays, names)| == |names|
    ensures forall i :: 0 <= i < |names| ==> StatsList(items, now, staleDays, names)[i] == StatsFor(items, now, staleDays, names[i])
  {
    if names != [] {
      StatsListShape(items, now, staleDays, names[..|names| - 1]);
    }
  }

  function ReviewerOf(s: ReviewerBacklog): string {
    s.reviewer
  }

  function TotalOf(s: ReviewerBacklog): int {
    s.total
  }

  function StaleOf(s: ReviewerBacklog): int {
    s.stale
  }

  lemma {:induction false} StatsListSums(items: seq<BacklogAssignment>, now: real, staleDays: int, names: seq<string>)
    ensures SumBy(StatsList(items, now, staleDays, names), TotalOf) == SumCounts(names, Names(items))
    ensures SumBy(StatsList(items, now, staleDays, names), StaleOf) == SumCounts(names, StaleNames(items, now, staleDays))
  {
    if names != [] {
      var init := names[..|names| - 1];
      StatsListSums(items, now, staleDays, init);
      var l := StatsList(items, now, staleDays, names);
      assert l[..|l| - 1] == StatsList(items, now, staleDays, init);
    }
  }

  /** The per-reviewer totals add up to `total` and the per-reviewer stale
      counts to `stale`. */
  lemma ReviewerStatsSum(items: seq<BacklogAssignment>, now: real, staleDays: int)
    ensures var r := Report(items, now, staleDays);
            SumBy(r.reviewerStats, TotalOf) == r.total && SumBy(r.reviewerStats, StaleOf) == r.stale
  {
    var names := Distinct(Names(items));
    var l := StatsList(items, now, staleDays, names);
    DistinctKeys(Names(items));
    StaleNamesBound(items, now, staleDays);
    Lengths(items, now);
    SumCountsIsLength(names, Names(items));
    SumCountsIsLength(names, StaleNames(items, now, staleDays));
    StatsListSums(items, now, staleDays, names);
    SumByPermutation(SortBy(l, StatBefore), l, TotalOf);
    SumByPermutation(SortBy(l, StatBefore), l, StaleOf);
  }

  lemma StatBeforeIsStrictWeakOrder()
    ensures StrictWeakOrder(StatBefore)
  {
  }

  lemma PairBeforeIsStrictWeakOrder()
    ensures StrictWeakOrder(PairBefore)
  {
  }

  /** `reviewer_stats` holds one line per reviewer with an assignment,
      with that reviewer's count, stale count and oldest age. */
  lemma ReviewerStatsLines(items: seq<BacklogAssignment>, now: real, staleDays: int)
    ensures var r := Report(items, now, staleDays);
            && (forall s :: s in r.reviewerStats ==>
                  && s == StatsFor(items, now, staleDays, s.reviewer)
                  && s.total >= 1
                  && (forall a :: a in items && a.reviewer == s.reviewer ==> Age(a, now) <= s.oldestAgeDays))
            && (forall a :: a in items ==> exists s :: s in r.reviewerStats && s.reviewer == a.reviewer)
  {
    var names := Distinct(Names(items));
    var l := StatsList(items, now, staleDays, names);
    var sorted := SortBy(l, StatBefore);
    DistinctKeys(Names(items));
    StatsListShape(items, now, staleDays, names);
    forall s | s in sorted
      ensures s == StatsFor(items, now, staleDays, s.reviewer) && s.total >= 1
      ensures forall a :: a in items && a.reviewer == s.reviewer ==> Age(a, now) <= s.oldestAgeDays
    {
      SortByMembers(l, StatBefore, s);
      var i :| 0 <= i < |l| && l[i] == s;
      assert names[i] in Names(items);
      OldestForIsGreatest(items, now, s.reviewer);
    }
    forall a | a in items
      ensures exists s :: s in sorted && s.reviewer == a.reviewer
    {
      StatsLineFor(items, now, staleDays, a);
    }
  }

  lemma StatsLineFor(items: seq<BacklogAssignment>, now: real, staleDays: int, a: BacklogAssignment)
    requires a in items
    ensures StatsFor(items, now, staleDays, a.reviewer)
            in SortBy(StatsList(items, now, staleDays, Distinct(Names(items))), StatBefore)
  {
    var names := Distinct(Names(items));
    var l := StatsList(items, now, staleDays, names);
    KeysOfAt(items, AssigneeOf);
    DistinctKeys(Names(items));
    StatsListShape(items, now, staleDays, names);
    var i :| 0 <= i < |items| && items[i] == a;
    assert Names(items)[i] == a.reviewer;
    assert a.reviewer in names;
    var k :| 0 <= k < |names| && names[k] == a.reviewer;
    SortByMembers(l, StatBefore, l[k]);
  }

  /** The lines are ordered by stale count and then total, largest first,
      and no reviewer has two. */
  lemma ReviewerStatsOrdered(items: seq<BacklogAssignment>, now: real, staleDays: int)
    ensures var r := Report(items, now, staleDays);
            && SortedBy(r.reviewerStats, StatBefore)
            && (forall i, j :: 0 <= i < j < |r.reviewerStats| ==> r.reviewerStats[i].reviewer != r.reviewerStats[j].reviewer)
  {
    var names := Distinct(Names(items));
    var l := StatsList(items, now, staleDays, names);
    StatBeforeIsStrictWeakOrder();
    SortBySorted(l, StatBefore);
    DistinctKeys(Names(items));
    StatsListShape(items, now, staleDays, names);
    KeysStayDistinct(l, names, ReviewerOf, SortBy(l, StatBefore));
  }

  /** `oldest_assignments` pairs every assignment with its age, oldest
      first; equally old assignments keep their input order. */
  lemma OldestAssignmentsOrdered(items: seq<BacklogAssignment>, now: real, staleDays: int)
    ensures var r := Report(items, now, staleDays);
            && multiset(r.oldestAssignments) == multiset(Pairs(items, now))
            && SortedBy(r.oldestAssignments, PairBefore)
            && (forall p :: p in r.oldestAssignments ==> p.0 in items && p.1 == Age(p.0, now))
  {
    var ps := Pairs(items, now);
    PairBeforeIsStrictWeakOrder();
    SortBySorted(ps, PairBefore);
    PairsAt(items, now);
    forall p | p in SortBy(ps, PairBefore)
      ensures p.0 in items && p.1 == Age(p.0, now)
    {
      SortByMembers(ps, PairBefore, p);
      var i :| 0 <= i < |ps| && ps[i] == p;
    }
  }

  // ---------------------------------------------------------------------
  // The loop

  /** One entry of `reviewer_totals`. */
  datatype Tally = Tally(total: int, stale: int, oldest: real)

  /** `reviewer_totals` after the first `items` assignments. */
  ghost predicate TalliesMatch(items: seq<BacklogAssignment>, now: real, staleDays: int,
                               order: seq<string>, totals: map<string, Tally>)
  {
    && order == Distinct(Names(items))
    && KeysMatch(order, totals)
    && EntriesMatch(items, now, staleDays, totals)
  }

  /** The dict's keys are the names in `order`. */
  ghost predicate KeysMatch(order: seq<string>, totals: map<string, Tally>) {
    forall n :: n in totals <==> n in order
  }

  lemma KeysStep(order: seq<string>, totals: map<string, Tally>, name: string, t: Tally)
    requires KeysMatch(order, totals)
    ensures KeysMatch(if name in totals then order else order + [name], totals[name := t])
  {
  }

  /** What one more assignment adds to the per-assignment lists. */
  lemma SnocStep(items: seq<BacklogAssignment>, now: real, staleDays: int, a: BacklogAssignment)
    ensures Ages(items + [a], now) == Ages(items, now) + [Age(a, now)]
    ensures Pairs(items + [a], now) == Pairs(items, now) + [(a, Age(a, now))]
    ensures |StaleNames(items + [a], now, staleDays)|
            == |StaleNames(items, now, staleDays)| + (if IsStale(a, now, staleDays) then 1 else 0)
  {
    var next := items + [a];
    assert next[..|next| - 1] == items;
  }

  /** `bucket_counts` holds, under every bucket, how many of `items`
      fall in it. */
  ghost predicate BucketsMatch(items: seq<BacklogAssignment>, now: real, m: map<Bucket, int>) {
    forall b: Bucket :: b in m && m[b] == Occurrences(BucketsOf(items, now), b)
  }

  /** What one more assignment adds to the bucket counts. */
  lemma BucketStep(items: seq<BacklogAssignment>, now: real, m: map<Bucket, int>, a: BacklogAssignment)
    requires BucketsMatch(items, now, m)
    ensures BucketsMatch(items + [a], now, m[BucketOf(Age(a, now)) := m[BucketOf(Age(a, now))] + 1])
  {
    var next := items + [a];
    assert next[..|next| - 1] == items;
    assert BucketsOf(next, now) == BucketsOf(items, now) + [BucketOf(Age(a, now))];
  }

  lemma BucketMapAt(items: seq<BacklogAssignment>, now: real, b: Bucket)
    ensures b in BucketMap(items, now) && BucketMap(items, now)[b] == Occurrences(BucketsOf(items, now), b)
  {
    match b
    case Days0To2 =>
    case Days3To5 =>
    case Days6To10 =>
    case Days11Plus =>
  }

  lemma BucketsMatchMap(items: seq<BacklogAssignment>, now: real, m: map<Bucket, int>)
    requires BucketsMatch(items, now, m)
    ensures m == BucketMap(items, now)
  {
    var m' := BucketMap(items, now);
    forall b: Bucket
      ensures b in m' && m'[b] == m[b]
    {
      BucketMapAt(items, now, b);
    }
    assert m.Keys == m'.Keys;
  }

  lemma TallyStepOrder(items: seq<BacklogAssignment>, a: BacklogAssignment)
    ensures var order := Distinct(Names(items));
            Distinct(Names(items + [a])) == if a.reviewer in order then order else order + [a.reviewer]
  {
    var next := items + [a];
    assert next[..|next| - 1] == items;
    var names := Names(items);
    assert Names(next) == names + [a.reviewer];
    assert (names + [a.reviewer])[..|names|] == names;
  }

  lemma TallyStepEntry(items: seq<BacklogAssignment>, now: real, staleDays: int, a: BacklogAssignment, n: string)
    ensures Occurrences(Names(items + [a]), n) == Occurrences(Names(items), n) + (if n == a.reviewer then 1 else 0)
    ensures Occurrences(StaleNames(items + [a], now, staleDays), n)
            == Occurrences(StaleNames(items, now, staleDays), n) + (if n == a.reviewer && IsStale(a, now, staleDays) then 1 else 0)
    ensures OldestFor(items + [a], now, n)
            == if n == a.reviewer && Age(a, now) > OldestFor(items, now, n) then Age(a, now) else OldestFor(items, now, n)
  {
    var next := items + [a];
    assert next[..|next| - 1] == items;
    assert Names(next) == Names(items) + [a.reviewer];
  }

  /** `reviewer_totals.setdefault(name, {"total": 0, "stale": 0, "oldest": 0.0})` */
  function Lookup(totals: map<string, Tally>, name: string): Tally {
    if name in totals then totals[name] else Tally(0, 0, 0.0)
  }

  /** One assignment of the given age added to a reviewer's entry. */
  function Bump(t: Tally, age: real, stale: bool): Tally {
    Tally(t.total + 1, t.stale + (if stale then 1 else 0), if t.oldest > age then t.oldest else age)
  }

  /** The entries of `reviewer_totals` after one more assignment. */
  ghost predicate EntriesMatch(items: seq<BacklogAssignment>, now: real, staleDays: int, totals: map<string, Tally>) {
    forall n :: n in totals ==>
      totals[n] == Tally(Occurrences(Names(items), n), Occurrences(StaleNames(items, now, staleDays), n),
                         OldestFor(items, now, n))
  }

  lemma TallyStepEntries(items: seq<BacklogAssignment>, now: real, staleDays: int, totals: map<string, Tally>,
                         a: BacklogAssignment)
    requires EntriesMatch(items, now, staleDays, totals)
    requires a.reviewer !in totals ==> a.reviewer !in Names(items)
    ensures EntriesMatch(items + [a], now, staleDays,
                         totals[a.reviewer := Bump(Lookup(totals, a.reviewer), Age(a, now), IsStale(a, now, staleDays))])
  {
    var next := items + [a];
    var t' := Bump(Lookup(totals, a.reviewer), Age(a, now), IsStale(a, now, staleDays));
    var totals' := totals[a.reviewer := t'];
    if a.reviewer !in totals {
      Absent(items, now, staleDays, a.reviewer);
    }
    forall n | n in totals'
      ensures totals'[n] == Tally(Occurrences(Names(next), n), Occurrences(StaleNames(next, now, staleDays), n),
                                  OldestFor(next, now, n))
    {
      TallyStepEntry(items, now, staleDays, a, n);
      if n == a.reviewer {
        assert totals'[n] == t';
      } else {
        assert totals'[n] == totals[n];
      }
    }
  }

  lemma TallyStep(items: seq<BacklogAssignment>, now: real, staleDays: int, order: seq<string>, totals: map<string, Tally>,
                  a: BacklogAssignment)
    requires TalliesMatch(items, now, staleDays, order, totals)
    ensures TalliesMatch(items + [a], now, staleDays, if a.reviewer in totals then order else order + [a.reviewer],
                         totals[a.reviewer := Bump(Lookup(totals, a.reviewer), Age(a, now), IsStale(a, now, staleDays))])
  {
    DistinctKeys(Names(items));
    TallyStepOrder(items, a);
    TallyStepEntries(items, now, staleDays, totals, a);
    KeysStep(order, totals, a.reviewer, Bump(Lookup(totals, a.reviewer), Age(a, now), IsStale(a, now, staleDays)));
  }

  /** The state of the loop after the assignments `items`. */
  ghost predicate Accumulated(items: seq<BacklogAssignment>, now: real, staleDays: int,
                              bucketCounts: map<Bucket, int>, order: seq<string>, totals: map<string, Tally>,
                              oldestAssignments: seq<(BacklogAssignment, real)>, ages: seq<real>, stale: int)
  {
    && BucketsMatch(items, now, bucketCounts)
    && TalliesMatch(items, now, staleDays, order, totals)
    && oldestAssignments == Pairs(items, now) && ages == Ages(items, now)
    && stale == |StaleNames(items, now, staleDays)|
  }

  lemma AccumulateStep(items: seq<BacklogAssignment>, now: real, staleDays: int,
                       bucketCounts: map<Bucket, int>, order: seq<string>, totals: map<string, Tally>,
                       oldestAssignments: seq<(BacklogAssignment, real)>, ages: seq<real>, stale: int,
                       a: BacklogAssignment)
    requires Accumulated(items, now, staleDays, bucketCounts, order, totals, oldestAssignments, ages, stale)
    ensures BucketOf(Age(a, now)) in bucketCounts
    ensures Accumulated(items + [a], now, staleDays,
                        bucketCounts[BucketOf(Age(a, now)) := bucketCounts[BucketOf(Age(a, now))] + 1],
                        if a.reviewer in totals then order else order + [a.reviewer],
                        totals[a.reviewer := Bump(Lookup(totals, a.reviewer), Age(a, now), IsStale(a, now, staleDays))],
                        oldestAssignments + [(a, Age(a, now))], ages + [Age(a, now)],
                        stale + if IsStale(a, now, staleDays) then 1 else 0)
  {
    SnocStep(items, now, staleDays, a);
    BucketStep(items, now, bucketCounts, a);
    TallyStep(items, now, staleDays, order, totals, a);
  }

  /** The body of the `for assignment in assignments` loop. */
  method Observe(ghost items: seq<BacklogAssignment>, now: real, staleDays: int, assignment: BacklogAssignment,
                 bucketCounts: map<Bucket, int>, order: seq<string>, totals: map<string, Tally>,
                 oldestAssignments: seq<(BacklogAssignment, real)>, ages: seq<real>, stale: int)
    returns (bucketCounts': map<Bucket, int>, order': seq<string>, totals': map<string, Tally>,
             oldestAssignments': seq<(BacklogAssignment, real)>, ages': seq<real>, stale': int)
    requires Accumulated(items, now, staleDays, bucketCounts, order, totals, oldestAssignments, ages, stale)
    ensures Accumulated(items + [assignment], now, staleDays, bucketCounts', order', totals', oldestAssignments', ages', stale')
  {
    AccumulateStep(items, now, staleDays, bucketCounts, order, totals, oldestAssignments, ages, stale, assignment);
    var age := Age(assignment, now);
    ages' := ages + [age];
    var bucket := BucketOf(age);
    bucketCounts' := bucketCounts[bucket := bucketCounts[bucket] + 1];
    oldestAssignments' := oldestAssignments + [(assignment, age)];

    var entry := Lookup(totals, assignment.reviewer);
    order' := order;
    if assignment.reviewer !in totals {
      order' := order + [assignment.reviewer];
    }
    var isStale := age >= staleDays as real;
    stale' := stale;
    if isStale {
      stale' := stale + 1;
    }
    totals' := totals[assignment.reviewer := Bump(entry, age, isStale)];
  }

  /** The `for assignment in assignments` loop. */
  method Accumulate(items: seq<BacklogAssignment>, now: real, staleDays: int)
    returns (bucketCounts: map<Bucket, int>, order: seq<string>, totals: map<string, Tally>,
             oldestAssignments: seq<(BacklogAssignment, real)>, ages: seq<real>, stale: int)
    ensures Accumulated(items, now, staleDays, bucketCounts, order, totals, oldestAssignments, ages, stale)
  {
    bucketCounts := map[Days0To2 := 0, Days3To5 := 0, Days6To10 := 0, Days11Plus := 0];
    order, totals, oldestAssignments, ages, stale := [], map[], [], [], 0;
    forall b: Bucket
      ensures b in bucketCounts && bucketCounts[b] == Occurrences(BucketsOf([], now), b)
    {
      BucketMapAt([], now, b);
    }
    for i := 0 to |items|
      invariant Accumulated(items[..i], now, staleDays, bucketCounts, order, totals, oldestAssignments, ages, stale)
    {
      assert items[..i + 1] == items[..i] + [items[i]];
      bucketCounts, order, totals, oldestAssignments, ages, stale :=
        Observe(items[..i], now, staleDays, items[i], bucketCounts, order, totals, oldestAssignments, ages, stale);
    }
    assert items[..|items|] == items;
  }

  /** `build_backlog_report` */
  method BuildBacklogReport(items: seq<BacklogAssignment>, now: real, staleDays: int) returns (report: BacklogReport)
    ensures report == Report(items, now, staleDays)
  {
    var bucketCounts, order, totals, oldestAssignments, ages, stale := Accumulate(items, now, staleDays);
    BucketsMatchMap(items, now, bucketCounts);
    var total := |ages|;
    var avgAge := if total > 0 then SumReal(ages) / total as real else 0.0;
    assert avgAge == Mean(ages);
    var oldest := if ages != [] then MaxReal(ages) else 0.0;

    var reviewerStats: seq<ReviewerBacklog> := [];
    for k := 0 to |order|
      invariant reviewerStats == StatsList(items, now, staleDays, order[..k])
    {
      var t := totals[order[k]];
      reviewerStats := reviewerStats + [ReviewerBacklog(order[k], t.total, t.stale, t.oldest)];
      assert order[..k + 1][..k] == order[..k];
    }
    assert order[..|order|] == order;
    reviewerStats := SortBy(reviewerStats, StatBefore);
    oldestAssignments := SortBy(oldestAssignments, PairBefore);
    report := BacklogReport(total, stale, avgAge, oldest, bucketCounts, reviewerStats, oldestAssignments);
  }
}
