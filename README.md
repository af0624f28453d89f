# Review load balancer: a verified model of the allocation engine and the reports

This project models the core of the review load balancer in Dafny. The load
balancer hands application reviews to reviewers under capacity and expertise
constraints, and it reports on backlog age, throughput and tag coverage. The
model covers four groups of operations.

- **The reviewer score and the one-pass allocator** (`Allocator`).
  `score_reviewer` weighs free capacity at 65% and tag coverage at 35%, and
  rounds half-even to four decimals. `plan_assignments` gives each application,
  in turn, to the reviewer ranked first under the loads planned so far.
- **The rebalancer** (`Rebalancer`). `propose_reassignments` compares each
  reviewer's utilisation with the pool's target utilisation. It gives each
  over-utilised reviewer an offload quota and each under-utilised one an
  intake quota. It then scores every possible move and takes the best moves
  first, subject to the quotas and the receiving reviewer's capacity.
- **The reviewer-first planner** (`Balancer`). `balancer.plan_assignments`
  fills each pending application up to the reviews it needs. Each review goes
  to the eligible reviewer with the least load, then the most tag overlap,
  then the first name. The planner stops when the limit is spent.
- **The reports** (`Backlog`, `Throughput`, `TagCapacityReport`).
  - The backlog report places active assignments in age buckets and rolls
    them up by reviewer.
  - The throughput report counts completions inside a trailing window, per
    day and per reviewer, with cycle-time statistics.
  - The tag capacity report sets each tag's demand against the capacity of
    the reviewers who list the tag.

Each loop of the source is a Dafny `method` with loop invariants. Each method
is proved against a specification function: `Plan`, `Propose`, `Report`,
`IsReport` and so on. The properties the code promises are then proved about
those functions as lemmas. Shared modules model Python's built-ins:

- `Sorting`: the stable `list.sort`, as an insertion sort over a "comes
  before" relation.
- `Grouping`: dicts that keep insertion order, used as counters.
- `Aggregates`: `sum`, `min`, `max` and the mean.
- `Rounding`: `round` with half-even ties.
- `Collections`: `set(...)` and `dict.get(k, 0)`.
- `Wrappers`: `Option` and `Result`.

Modelling choices:

- Floats are exact reals.
- Timestamps are day counts on one clock.
- The database reads of `balancer.plan_assignments` are parameters of the
  model: reviewer rows, active loads, existing pairs, conflicts, pending
  applications, and the review count of each application.

Two behaviours of the code that the model keeps as they are:

- **Coverage ratio.** `coverage_ratio` is None exactly when the line's
  demand (`queue_count`) is 0 (`src/review_load_balancer/reports.py:246-248`).
  An "untagged" line with demand and no reviewers therefore gets the ratio
  `0 / demand = 0`, as the tests for the reports expect
  (`tests/test_reports.py:107-112`).
- **Ties in the planner's sort.** Suppose two eligible reviewers agree on
  load, tag overlap and name. Then the planner's `eligible.sort()` falls
  through to comparing the two reviewer dicts, which raises a `TypeError`.
  The model returns `Err(UnorderableTie(app))` in that case
  (`Balancer.PickIsLeast` states exactly when).

## Model

| member | source | states |
|---|---|---|
| Rounding.RoundHalfEven | src/review_load_balancer/allocator.py:244 | `round(x)` is an integer within one half of `x`, and even when `x` is exactly halfway |
| Rounding.RoundHalfEvenUnique | src/review_load_balancer/allocator.py:244 | those two conditions determine `round(x)`: no other integer meets them |
| Rounding.Round4 | src/review_load_balancer/allocator.py:124 | `round(x, 4)` is within half a unit of the fourth decimal of `x` |
| Rounding.Round4Monotone | src/review_load_balancer/allocator.py:124 | rounding to four decimals preserves `<=` |
| Rounding.Round4UnitInterval | src/review_load_balancer/allocator.py:124 | rounding keeps a value of [0, 1] inside [0, 1] |
| Allocator.Availability | src/review_load_balancer/allocator.py:117-118 | free capacity over capacity is never negative, at most 1 for a non-negative load, and 0 exactly when the load reaches capacity |
| Allocator.TagScore | src/review_load_balancer/allocator.py:119-123 | tag coverage lies in [0, 1] and is 0 exactly when no tag matches (including an application without tags) |
| Allocator.Score | src/review_load_balancer/allocator.py:114-124 | a reviewer without capacity scores 0; otherwise the score lies in [0, 1] |
| Allocator.ScoreMonotoneInMatches | src/review_load_balancer/allocator.py:119-124 | for two reviewers with the same capacity and load, and applications with the same number of tags, more matching tags never lower the score |
| Allocator.ScorePrefersTagMatch | tests/test_allocator.py:9-17 | a usable reviewer scores an application tagged with one of its tags strictly above one tagged with a tag it lacks |
| Allocator.ScoreIgnoresTagOrder | src/review_load_balancer/allocator.py:122-123 | the score reads both tag lists as sets: reordering either list leaves it unchanged |
| Allocator.Rank | src/review_load_balancer/allocator.py:141-152 | the ranking holds, in reviewer order, each reviewer's working copy (load plus the picks so far) and its score |
| Allocator.RankBeforeIsStrictWeakOrder | src/review_load_balancer/allocator.py:153 | "higher score first" is a valid sort order |
| Allocator.RankedHeadIsBest | src/review_load_balancer/allocator.py:153-154 | the head of the sorted ranking is the first reviewer with the highest working score |
| Allocator.WorkingAfterPick | src/review_load_balancer/allocator.py:155 | raising the picked reviewer's counter keeps every counter equal to its snapshot load plus its picks so far |
| Allocator.PlanAssignments | src/review_load_balancer/allocator.py:127-164 | fails exactly when there are applications and no reviewers; otherwise there is one assignment per application, in order, each to the first reviewer with the highest score under the loads left by the earlier assignments, carrying that score |
| Rebalancer.CandidateBeforeIsStrictWeakOrder | src/review_load_balancer/allocator.py:280 | "higher score first" is a valid sort order for the candidates |
| Rebalancer.ConsumeSpent | src/review_load_balancer/allocator.py:307-308 | once every offload quota is used up, no further candidate is taken, so the early `break` changes nothing |
| Rebalancer.ConsumeDrawsFromCandidates | src/review_load_balancer/allocator.py:283-305 | every plan is the plan of one of the candidates |
| Rebalancer.ConsumeNonIncreasing | src/review_load_balancer/allocator.py:280-305 | plans taken from score-sorted candidates come out in non-increasing score order |
| Rebalancer.ConsumeQuotas | src/review_load_balancer/allocator.py:284-294 | no reviewer gives away more than its offload quota or receives more than its intake quota |
| Rebalancer.ConsumeCapacity | src/review_load_balancer/allocator.py:288-292 | a reviewer that receives work ends at most at its capacity |
| Rebalancer.ExcessEntry | src/review_load_balancer/allocator.py:243-246 | every `excess` entry belongs to an over-utilised reviewer and holds its positive rounded surplus |
| Rebalancer.DeficitEntry | src/review_load_balancer/allocator.py:247-250 | every `deficit` entry belongs to an under-utilised reviewer that is not over-utilised, and holds its positive rounded shortfall |
| Rebalancer.Classification | src/review_load_balancer/allocator.py:237-250 | a reviewer gets an offload quota if and only if it is over the threshold with a positive rounded surplus, and an intake quota if and only if it is under it with a positive rounded shortfall |
| Rebalancer.UnderReviewersMember | src/review_load_balancer/allocator.py:255 | every receiving reviewer is a reviewer of the pool that holds an intake quota |
| Rebalancer.CandidatesShape | src/review_load_balancer/allocator.py:257-278 | every candidate pairs a held assignment of a reviewer with an offload quota with a receiving reviewer, with a positive score that is that reviewer's score for the application |
| Rebalancer.CandidatesForShape | src/review_load_balancer/allocator.py:267-278 | the candidates for one assignment are receiving reviewers with a positive score for it |
| Rebalancer.LoadsAt | src/review_load_balancer/allocator.py:228-233 | each reviewer's working load starts at its snapshot load |
| Rebalancer.QuotasAreEntries | src/review_load_balancer/allocator.py:235-250 | a reviewer's offload and intake quotas are the entries the classification put in `excess` and `deficit` |
| Rebalancer.ProposeOrdered | src/review_load_balancer/allocator.py:276-305 | the proposed plans are in non-increasing score order and every score is positive |
| Rebalancer.ProposeMovesExcessToDeficit | src/review_load_balancer/allocator.py:216-310 | every plan moves an active assignment of a reviewer with an offload quota to a different reviewer with an intake quota |
| Rebalancer.ProposeRespectsQuotasAndCapacity | src/review_load_balancer/allocator.py:283-294 | per reviewer, moves away are at most its offload quota and moves in are at most its intake quota; a receiving reviewer ends at most at capacity |
| Rebalancer.ExcessEmpty | src/review_load_balancer/allocator.py:235-246 | without an over-utilised reviewer that has a positive surplus, `excess` stays empty |
| Rebalancer.DeficitEmpty | src/review_load_balancer/allocator.py:235-250 | without an under-utilised reviewer that has a positive shortfall, `deficit` stays empty |
| Rebalancer.ProposeNoOpWhenNoQuota | src/review_load_balancer/allocator.py:252-253 | if no reviewer has an offload quota, or none has an intake quota, nothing is proposed |
| Rebalancer.ProposeReassignments | src/review_load_balancer/allocator.py:216-310 | returns `Propose`; nothing when total capacity is not positive; plans in non-increasing positive-score order, each between two different reviewers, within every quota and capacity |
| Rebalancer.InitialLoads | src/review_load_balancer/allocator.py:228-233 | the `reviewer_state` loop gives every reviewer id its snapshot load |
| Rebalancer.Classify | src/review_load_balancer/allocator.py:235-250 | the classification loop fills `excess` and `deficit` as `Excess` and `Deficit` define them |
| Rebalancer.CollectCandidates | src/review_load_balancer/allocator.py:257-278 | the nested candidate loops produce `Candidates` in loop order |
| Rebalancer.ConsumeCandidates | src/review_load_balancer/allocator.py:282-310 | the consuming loop, including its early exit, produces `Consume` |
| Rebalancer.ScenarioClassification | tests/test_allocator.py:20-35 | in the three-reviewer scenario, A owes one offload, B and C can each take one, and the target utilisation is 1/3 |
| Rebalancer.ScenarioScores | tests/test_allocator.py:20-35 | there, idle B scores 0.65 for the stem application and idle C, tagged stem, scores 1.0 |
| Rebalancer.ScenarioCandidatesFor | tests/test_allocator.py:20-35 | the candidates for A's application are B at 0.65 and C at 1.0, in that order |
| Rebalancer.ScenarioCandidates | tests/test_allocator.py:20-35 | sorted, C's candidate comes before B's |
| Rebalancer.ScenarioConsume | tests/test_allocator.py:37-41 | consuming the sorted candidates takes only the move to C |
| Rebalancer.ScenarioMovesToTagMatch | tests/test_allocator.py:20-41 | the only proposal moves application 101 from reviewer 1 to reviewer 3 |
| Rebalancer.ScenarioBalancedIsEmpty | tests/test_allocator.py:44-53 | two reviewers at the same utilisation give no proposal |
| Balancer.TagOverlap | src/review_load_balancer/balancer.py:84-85 | the overlap is at most the number of distinct tags on either side, is 0 exactly when the lists share no tag, and is 0 when either list is NULL |
| Balancer.EntryBeforeIsStrictWeakOrder | src/review_load_balancer/balancer.py:136 | the tuple order on (load, -overlap, name) is a valid sort order |
| Balancer.EntryBeforeTotal | src/review_load_balancer/balancer.py:123-136 | two tuples are unordered by it exactly when they agree on load, overlap and name |
| Balancer.EligibleMembers | src/review_load_balancer/balancer.py:113-131 | a tuple is eligible exactly when it belongs to a reviewer under its `max_load`, not in conflict with the application and not already paired with it |
| Balancer.LeastIsLeast | src/review_load_balancer/balancer.py:136-137 | the least tuple is eligible and no eligible tuple comes strictly before it |
| Balancer.LeastIsStrictlyLeast | src/review_load_balancer/balancer.py:136-137 | without ties, the least tuple comes strictly before every other one |
| Balancer.SortedHeadIsLeast | src/review_load_balancer/balancer.py:136-137 | without ties, the head of the sorted tuples is the least tuple |
| Balancer.PickIsEligible | src/review_load_balancer/balancer.py:113-138 | the chosen reviewer belongs to the pool and may take the application |
| Balancer.PickIsLeast | src/review_load_balancer/balancer.py:113-137 | there is no choice exactly when nobody is eligible; the sort fails exactly when two eligible tuples tie; otherwise the choice is eligible and comes strictly before every other eligible tuple |
| Balancer.NoEligibleSkipsApplication | src/review_load_balancer/balancer.py:133-134 | if nobody is eligible, the application gets no review and planning moves on to the next one |
| Balancer.FillTakes | src/review_load_balancer/balancer.py:109-148 | a successful choice is recorded and the remaining reviews of the application follow from the new state |
| Balancer.TakeBudget | src/review_load_balancer/balancer.py:139-148 | recording a choice spends one unit of the limit per plan |
| Balancer.TakeLoads | src/review_load_balancer/balancer.py:146 | recording a choice raises the chosen reviewer's load by one, never past its `max_load` |
| Balancer.TakePairs | src/review_load_balancer/balancer.py:139-147 | recording a choice adds a new pair, outside the conflicts, that is then listed among the existing pairs |
| Balancer.FillKeepsBudget | src/review_load_balancer/balancer.py:109-148 | one application's turn keeps "plans equal limit spent" |
| Balancer.FillKeepsLoads | src/review_load_balancer/balancer.py:109-148 | one application's turn keeps every load equal to its snapshot load plus its plans, within `max_load` |
| Balancer.FillKeepsPairs | src/review_load_balancer/balancer.py:109-148 | one application's turn never plans a conflicting or repeated pair |
| Balancer.FillSafe | src/review_load_balancer/balancer.py:109-148 | one application's turn keeps the plan safe |
| Balancer.RunSafe | src/review_load_balancer/balancer.py:99-148 | the whole queue keeps the plan safe |
| Balancer.PlanIsSafe | src/review_load_balancer/balancer.py:96-148 | the plan never includes a conflicting pair or a pair that already exists, repeats no pair, has at most `limit` entries, and never lifts a reviewer's load past `max_load` (a reviewer already above it gets nothing) |
| Balancer.CountForBlock | src/review_load_balancer/balancer.py:139-145 | appending plans for one application raises only that application's count |
| Balancer.FillBlock | src/review_load_balancer/balancer.py:109-148 | one application's turn appends at most `remaining` plans, all for that application |
| Balancer.RunPerApplication | src/review_load_balancer/balancer.py:99-148 | across the queue, each application gets at most its remaining reviews |
| Balancer.PlanPerApplication | src/review_load_balancer/balancer.py:103-109 | no application gets more plans than `max(needs_reviews - assigned_count, 0)`, and every plan is for a pending application |
| Balancer.CountForPositive | src/review_load_balancer/balancer.py:139-145 | an application that has a plan has a positive plan count |
| Balancer.CollectEligible | src/review_load_balancer/balancer.py:113-131 | the inner reviewer loop builds the eligible tuples in reviewer order |
| Balancer.SortedHead | src/review_load_balancer/balancer.py:136-137 | `eligible.sort()` followed by `eligible[0]` yields the least tuple |
| Balancer.ChooseReviewer | src/review_load_balancer/balancer.py:113-137 | one pass up to the choice computes `Pick`: no choice, the tie error, or the least tuple |
| Balancer.ReviewApplication | src/review_load_balancer/balancer.py:109-148 | the `range(remaining)` loop computes `Fill` for the application |
| Balancer.PlanAssignments | src/review_load_balancer/balancer.py:88-148 | returns `Plan`; on success, the plan is within the limit, avoids conflicting and existing pairs, repeats no pair, keeps loads within `max_load`, and gives no application more than its remaining reviews |
| Backlog.BucketAge | src/review_load_balancer/reports.py:83-90 | the bucket label is one of the four keys of `bucket_counts`, and it is the label of the bucket after as many of the thresholds 3, 6 and 11 as the age has reached |
| Backlog.BucketAgeByThresholds | src/review_load_balancer/reports.py:83-90 | the bucket is the one after as many of the thresholds 3, 6 and 11 as the age has reached, so an older age never gets an earlier bucket |
| Backlog.BucketAgeBoundaries | tests/test_reports.py:30-37 | ages 0 and 2.9 go to "0-2", 3 and 5.9 to "3-5", 6 and 10.9 to "6-10", and 11 to "11+" |
| Backlog.BucketMapSums | src/review_load_balancer/reports.py:154-163 | the bucket counter has exactly the four buckets, and their counts add up to the number of assignments |
| Backlog.BucketsSumToTotal | src/review_load_balancer/reports.py:154-175 | the report's four bucket counts add up to `total` |
| Backlog.StaleNamesBound | src/review_load_balancer/reports.py:170-172 | there are at most as many stale assignments as assignments, with equality exactly when all are stale |
| Backlog.StaleWithinTotal | src/review_load_balancer/reports.py:158-175 | `0 <= stale <= total`, `total` is the number of assignments, and `stale == total` exactly when every assignment is at least `stale_days` old |
| Backlog.OldestIsGreatestAge | src/review_load_balancer/reports.py:177 | `oldest_age_days` is the greatest age, one actually reached, or 0 without assignments |
| Backlog.AverageAgeBetween | src/review_load_balancer/reports.py:176-177 | `avg_age_days` is 0 without assignments; otherwise it lies between some assignment's age and the oldest age |
| Backlog.OldestForIsGreatest | src/review_load_balancer/reports.py:173 | a reviewer's `oldest` is at least 0 and at least the age of each of its assignments; it is 0 or one of those ages, and 0 for a name with no assignment |
| Backlog.StatsListShape | src/review_load_balancer/reports.py:179-187 | the unsorted stats list has, position by position, the line of each reviewer key |
| Backlog.StatsListSums | src/review_load_balancer/reports.py:179-187 | its totals and stale counts add up to the counted assignments |
| Backlog.ReviewerStatsSum | src/review_load_balancer/reports.py:179-188 | the reviewers' totals add up to `total` and their stale counts add up to `stale` |
| Backlog.StatBeforeIsStrictWeakOrder | src/review_load_balancer/reports.py:188 | `(stale, total)` descending is a valid sort order |
| Backlog.PairBeforeIsStrictWeakOrder | src/review_load_balancer/reports.py:190 | age descending is a valid sort order |
| Backlog.ReviewerStatsLines | src/review_load_balancer/reports.py:166-188 | each line holds its reviewer's count, stale count and oldest age, with a total of at least 1; every reviewer with an assignment has a line |
| Backlog.StatsLineFor | src/review_load_balancer/reports.py:166-188 | the reviewer of any assignment has its line in the sorted stats |
| Backlog.ReviewerStatsOrdered | src/review_load_balancer/reports.py:179-188 | the stats are sorted by `(stale, total)` descending, one line per reviewer |
| Backlog.OldestAssignmentsOrdered | src/review_load_balancer/reports.py:156-190 | `oldest_assignments` is a permutation of the (assignment, age) pairs, sorted by age descending |
| Backlog.Observe | src/review_load_balancer/reports.py:161-173 | one loop body extends every accumulator from a prefix of the assignments to the prefix plus one |
| Backlog.Accumulate | src/review_load_balancer/reports.py:154-173 | after the loop, the accumulators hold the specified values for all the assignments |
| Backlog.BuildBacklogReport | src/review_load_balancer/reports.py:149-200 | the procedure computes `Report`, the value about which the lemmas above are proved |
| Throughput.KeptIsWindow | src/review_load_balancer/reports.py:104-112 | the kept completions are exactly the input completions at or after the cutoff `now - days` |
| Throughput.TotalIsWindow | src/review_load_balancer/reports.py:104-124 | `total_completed` counts exactly the completions inside the window |
| Throughput.DailyKeysAreDays | src/review_load_balancer/reports.py:115-116 | the days in `daily_counts` are exactly the days with a completion in the window |
| Throughput.DailySum | src/review_load_balancer/reports.py:115-116 | the daily counts add up to the number of kept completions |
| Throughput.DailyCountsSum | src/review_load_balancer/reports.py:115-124 | the report's daily keys are the window's completion days, and their counts add up to `total_completed` |
| Throughput.StatsListShape | src/review_load_balancer/reports.py:129-136 | the unsorted stats list has, position by position, the line of each reviewer key |
| Throughput.StatsListSum | src/review_load_balancer/reports.py:129-136 | its completion counts add up over its keys |
| Throughput.ReviewerCountsSum | src/review_load_balancer/reports.py:118-137 | the reviewers' completion counts add up to `total_completed` |
| Throughput.CycleStatistics | src/review_load_balancer/reports.py:124-127 | an empty window gives zeros; otherwise `min <= avg <= max`, every cycle time lies between min and max, and both extremes are cycle times of the window |
| Throughput.CompletedBeforeIsStrictWeakOrder | src/review_load_balancer/reports.py:137 | `completed` descending is a valid sort order |
| Throughput.ReviewerStatsOrdered | src/review_load_balancer/reports.py:129-137 | the stats are sorted by `completed` descending, one line per reviewer |
| Throughput.ReviewerStatsLines | src/review_load_balancer/reports.py:118-137 | each line holds its reviewer's completion count (at least 1) and mean cycle time, which lies between the window's min and max |
| Throughput.StatWithinExtremes | src/review_load_balancer/reports.py:133 | a reviewer's average cycle time lies between the window's shortest and longest cycle |
| Throughput.EveryReviewerHasLine | src/review_load_balancer/reports.py:118-136 | every reviewer with a completion in the window has its line |
| Throughput.Observe | src/review_load_balancer/reports.py:113-122 | one kept completion extends `cycles`, `daily_counts` and `reviewer_totals` to the next prefix |
| Throughput.Accumulate | src/review_load_balancer/reports.py:104-122 | after the loop, the accumulators hold the specified values for the kept completions |
| Throughput.DailyMatchMap | src/review_load_balancer/reports.py:105-116 | the counter the loop built is the specified map of day counts |
| Throughput.BuildThroughputReport | src/review_load_balancer/reports.py:99-146 | the procedure computes `Report`, the value about which the lemmas above are proved |
| TagCapacityReport.UntaggedDemand | src/review_load_balancer/reports.py:209-217 | counting untagged applications adds their number to the "untagged" demand and changes no other tag |
| TagCapacityReport.DemandSize | src/review_load_balancer/reports.py:209-217 | total demand is the number of tag mentions, plus the untagged applications when they are included |
| TagCapacityReport.StateOfListed | src/review_load_balancer/reports.py:219-242 | a tag that nobody lists has no reviewers, capacity or load; a listed tag has at least one reviewer |
| TagCapacityReport.ReviewersListTag | src/review_load_balancer/reports.py:220-234 | every reviewer counted for a tag is a reviewer listing it |
| TagCapacityReport.ListingsAppend | src/review_load_balancer/reports.py:230-234 | one more reviewer's listings add only its key to the reviewer sets of its tags |
| TagCapacityReport.LineBeforeIsStrictWeakOrder | src/review_load_balancer/reports.py:261-268 | the key `(queue == 0, coverage or inf, -queue, tag)` is a valid sort order |
| TagCapacityReport.LineBeforeTotal | src/review_load_balancer/reports.py:261-268 | lines for different tags are never tied |
| TagCapacityReport.ReportIsUnique | src/review_load_balancer/reports.py:238-269 | the report does not depend on the order in which the tag set is visited |
| TagCapacityReport.TagsDistinct | src/review_load_balancer/reports.py:238-259 | no tag has two lines |
| TagCapacityReport.LineFacts | src/review_load_balancer/reports.py:241-259 | `remaining = max(capacity - assigned, 0)`; the coverage is None exactly when the queue is empty and is otherwise `remaining / queue`; the reviewer count is 0 exactly when nobody lists the tag, and then capacity and load are 0 |
| TagCapacityReport.ReportTags | src/review_load_balancer/reports.py:238-252 | there is one line for each tag of the demand or of some reviewer, and no other; `queue_count` is the tag's demand |
| TagCapacityReport.ReportOrder | src/review_load_balancer/reports.py:261-268 | zero-demand tags come last, and among tags with demand the coverage never decreases |
| TagCapacityReport.QueueCountsSum | src/review_load_balancer/reports.py:209-259 | the lines' queue counts add up to the tag mentions, plus the untagged applications when they are included |
| TagCapacityReport.CountTags | src/review_load_balancer/reports.py:216-217 | counting one application's tags adds each of them to the demand counter |
| TagCapacityReport.CountDemand | src/review_load_balancer/reports.py:209-217 | the demand loop builds a counter of the demand increments |
| TagCapacityReport.CollectState | src/review_load_balancer/reports.py:219-236 | the reviewer loops build, for each listed tag, its reviewer set and summed capacity and load |
| TagCapacityReport.MakeLine | src/review_load_balancer/reports.py:241-259 | one line of the report, from the two dicts, is the specified `Line` |
| TagCapacityReport.MakeLines | src/review_load_balancer/reports.py:238-259 | the report loop gives exactly one specified line per tag |
| TagCapacityReport.BuildTagCapacityReport | src/review_load_balancer/reports.py:203-269 | the result has exactly one specified line per tag of the demand or of some reviewer, strictly sorted by the report's key |
| TagCapacityReport.Ordered | src/review_load_balancer/reports.py:261-268 | sorting lines for distinct tags leaves them strictly ordered by that key |

## Left out

- Database access, the CLI and the writes of `balancer.plan_assignments` (the `INSERT` and the status update of the applications) are not modelled. `db.py` and `cli.py` are not part of this model. The planner's database reads and its per-application count query are parameters.
- `fetch_reviewers`, `fetch_unassigned_applications`, `persist_assignments`, `fetch_active_assignments` and `load_report` are SQL queries, so they are left out.
- Rounding.Round4: floats are exact reals. `round(x, 4)` is exact half-even rounding of the real value, so binary floating-point representation error is not modelled.
- Floating-point: ratios such as availability, coverage, the target utilisation and the averages are exact real divisions.
- Backlog.BuildBacklogReport: timestamps are day counts on one clock. An age is `now - assigned_at`; time zones and `_normalize_timestamp` are not modelled.
- Backlog.BuildBacklogReport: `bucket_counts` is keyed by the `Bucket` datatype. Its `Label` gives the source's string key, so the keys are not strings.
- Throughput.BuildThroughputReport: the key of `daily_counts` is the day number of the completion time (its whole part). It stands for `completed_at.date().isoformat()`, so the model has no calendar and no ISO date strings.
- Allocator.PlanAssignments: requires distinct reviewer ids. In the source they are database primary keys. A repeated id would collapse two reviewers into one dict entry.
- Rebalancer.ProposeReassignments: requires distinct reviewer ids, for the same reason.
- Balancer: the planner's reason string `overlap:<o> load:<l>` is the `Reason` record holding the two numbers. The text formatting is not modelled.
- Balancer: the tie `TypeError` of `eligible.sort()` is the `Err` outcome, not an exception.
- Balancer.PlanAssignments: requires distinct reviewer ids and distinct application ids; both are primary keys in the source's database.
- TagCapacityReport.BuildTagCapacityReport: a reviewer's key is its `id`. The `id`/`email`/`name`/index fallback chain, used for objects that lack an id, is not modelled.
- TagCapacityReport.BuildTagCapacityReport: the `getattr(..., default) or default` fallbacks for missing `tags`, `capacity` and `assigned` are not modelled; every record carries those fields.
- TagCapacityReport.BuildTagCapacityReport: an application is its tag list; its other fields are never read.
- TagCapacityReport.BuildTagCapacityReport: the iteration order of Python's set of tags is left open: any order is allowed. `ReportIsUnique` shows that the sorted result does not depend on it.
- TagCapacityReport.LineBefore: coverage ratios compare as exact reals; two ratios that differ only below float precision are not modelled.
- The field `assigned` is named `assignedCount` in the records, because `assigned` is a reserved word in Dafny.
- Default arguments are not modelled: every entry point takes all its arguments explicitly. Rebalancer.ProposeReassignments takes `threshold` (0.1 by default in the source), TagCapacityReport.BuildTagCapacityReport takes `includeUntagged` (keyword-only, True by default), and Balancer.PlanAssignments takes `limit` as an `Option` (None by default).
- Throughput.BuildThroughputReport: `daily_counts` is a `map<int, int>`, so the insertion order of the source's dict (first completion day first) is not kept; only its keys and counts are.
- Allocator.PlanAssignments: an application with no reviewers to rank makes `ranked[0]` raise `IndexError` in the source; the model returns `Err(EmptyRanking)` instead of raising.
- Sorting.SortBy: stability of `list.sort` is built into the insertion sort but not stated as a separate lemma. Where stability matters (the first reviewer among equal scores in `Allocator.RankedHeadIsBest`), it is proved.
