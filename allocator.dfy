/** The records of the allocation engine, the reviewer score and the
    greedy one-pass allocator. */
module Allocator {
  import opened Wrappers
  import opened Rounding
  import opened Sorting
  import opened Collections

  /** A snapshot of a reviewer: `assigned` is the number of active
      assignments, `capacity <= 0` marks a reviewer who cannot take work. */
  datatype Reviewer = Reviewer(id: int, name: string, capacity: int, tags: seq<string>, assignedCount: int)

  datatype Application = Application(id: int, applicantName: string, program: string, tags: seq<string>)

  datatype Assignment = Assignment(applicationId: int, reviewerId: int, score: real)

  /** An active assignment joined with its reviewer's name and the
      application's attributes. */
  datatype AssignmentDetail = AssignmentDetail(
    applicationId: int, reviewerId: int, reviewerName: string,
    applicantName: string, program: string, tags: seq<string>)

  /** A proposal to move one application from one reviewer to another. */
  datatype ReassignmentPlan = ReassignmentPlan(
    applicationId: int, fromReviewerId: int, fromReviewerName: string,
    toReviewerId: int, toReviewerName: string, score: real)

  /** Taking the head of an empty ranking raises an IndexError. */
  datatype AllocationError = EmptyRanking

  /** Reviewer ids are the database's primary keys. */
  ghost predicate DistinctIds(reviewers: seq<Reviewer>) {
    forall i, j :: 0 <= i < j < |reviewers| ==> reviewers[i].id != reviewers[j].id
  }

  /** Free capacity as a fraction of capacity, never negative. */
  function Availability(r: Reviewer): (a: real)
    requires r.capacity > 0
    ensures r.assignedCount >= 0 ==> a <= 1.0
    ensures 0.0 <= a
    ensures a == 0.0 <==> r.assignedCount >= r.capacity
  {
    (if r.capacity - r.assignedCount > 0 then r.capacity - r.assignedCount else 0) as real / r.capacity as real
  }

  /** Number of distinct application tags the reviewer holds. */
  function TagMatches(r: Reviewer, app: Application): nat {
    |SetOf(r.tags) * SetOf(app.tags)|
  }

  /** Share of the application's tag list the reviewer covers. The
      denominator is the length of the list, so a repeated application tag
      counts twice there. */
  function TagScore(r: Reviewer, app: Application): (t: real)
    ensures 0.0 <= t <= 1.0
    ensures t == 0.0 <==> TagMatches(r, app) == 0
  {
    if |app.tags| == 0 then 0.0
    else
      SetOfSize(app.tags);
      SubsetSize(SetOf(r.tags) * SetOf(app.tags), SetOf(app.tags));
      assert |app.tags| == 0 ==> TagMatches(r, app) == 0;
      TagMatches(r, app) as real / |app.tags| as real
  }

  /** `score_reviewer`: 65% availability, 35% tag coverage, rounded to
      four decimals; an unusable reviewer scores 0. */
  function Score(r: Reviewer, app: Application): (s: real)
    ensures r.capacity <= 0 ==> s == 0.0
    ensures r.assignedCount >= 0 ==> 0.0 <= s <= 1.0
  {
    if r.capacity <= 0 then 0.0
    else
      var raw := 0.65 * Availability(r) + 0.35 * TagScore(r, app);
      assert r.assignedCount >= 0 ==> 0.0 <= Round4(raw) <= 1.0 by {
        if r.assignedCount >= 0 {
          Round4UnitInterval(raw);
        }
      }
      Round4(raw)
  }

  /** For two reviewers at the same availability and an application with
      the same number of tags, more matched tags never give a lower score. */
  lemma ScoreMonotoneInMatches(r1: Reviewer, r2: Reviewer, a1: Application, a2: Application)
    requires r1.capacity == r2.capacity && r1.assignedCount == r2.assignedCount
    requires |a1.tags| == |a2.tags|
    requires TagMatches(r1, a1) <= TagMatches(r2, a2)
    ensures Score(r1, a1) <= Score(r2, a2)
  {
    if r1.capacity > 0 && |a1.tags| > 0 {
      var t1, t2 := TagScore(r1, a1), TagScore(r2, a2);
      DivideMonotone(TagMatches(r1, a1) as real, TagMatches(r2, a2) as real, |a1.tags| as real);
      assert t1 <= t2;
      var avail := Availability(r1);
      assert avail == Availability(r2);
      assert 0.65 * avail + 0.35 * t1 <= 0.65 * avail + 0.35 * t2;
      Round4Monotone(0.65 * avail + 0.35 * t1, 0.65 * avail + 0.35 * t2);
    }
  }

  lemma DivideMonotone(x: real, y: real, n: real)
    requires x <= y && n > 0.0
    ensures x / n <= y / n
  {
    assert y / n - x / n == (y - x) / n;
  }

  /** A rise in tag coverage worth more than one unit of the fourth decimal
      gives a strictly higher score. */
  lemma ScoreStrictInTagScore(r: Reviewer, a1: Application, a2: Application)
    requires r.capacity > 0
    requires 0.35 * TagScore(r, a1) + 0.0001 < 0.35 * TagScore(r, a2)
    ensures Score(r, a1) < Score(r, a2)
  {
    Round4Strict(0.65 * Availability(r) + 0.35 * TagScore(r, a1),
                 0.65 * Availability(r) + 0.35 * TagScore(r, a2));
  }

  /** A usable reviewer scores an application tagged with one of its tags
      strictly above one tagged with a tag it lacks. */
  lemma ScorePrefersTagMatch(r: Reviewer, t: string, u: string, a1: Application, a2: Application)
    requires r.capacity > 0
    requires t in r.tags && u !in r.tags
    requires a1.tags == [t] && a2.tags == [u]
    ensures Score(r, a1) > Score(r, a2)
  {
    assert SetOf(r.tags) * SetOf(a1.tags) == {t};
    assert SetOf(r.tags) * SetOf(a2.tags) == {};
    ScoreStrictInTagScore(r, a2, a1);
  }

  /** The score reads the tags as sets (and the application's tag count):
      reordering either tag list leaves it unchanged. */
  lemma ScoreIgnoresTagOrder(r1: Reviewer, r2: Reviewer, a1: Application, a2: Application)
    requires r1.capacity == r2.capacity && r1.assignedCount == r2.assignedCount
    requires multiset(r1.tags) == multiset(r2.tags)
    requires multiset(a1.tags) == multiset(a2.tags)
    ensures Score(r1, a1) == Score(r2, a2)
  {
    assert |a1.tags| == |multiset(a1.tags)| == |a2.tags|;
    forall t ensures t in r1.tags <==> t in r2.tags {
      assert t in r1.tags <==> t in multiset(r1.tags);
      assert t in r2.tags <==> t in multiset(r2.tags);
    }
    forall t ensures t in a1.tags <==> t in a2.tags {
      assert t in a1.tags <==> t in multiset(a1.tags);
      assert t in a2.tags <==> t in multiset(a2.tags);
    }
    assert SetOf(r1.tags) == SetOf(r2.tags);
    assert SetOf(a1.tags) == SetOf(a2.tags);
  }

  /** Number of assignments in `plan` that went to reviewer `id`. */
  function CountFor(plan: seq<Assignment>, id: int): nat {
    if plan == [] then 0
    else CountFor(plan[..|plan| - 1], id) + (if plan[|plan| - 1].reviewerId == id then 1 else 0)
  }

  /** The working copy of `r` once the assignments in `plan` are counted:
      only its `assigned` differs from the snapshot. */
  function Working(r: Reviewer, plan: seq<Assignment>): Reviewer {
    r.(assignedCount := r.assignedCount + CountFor(plan, r.id))
  }

  function WorkingScore(reviewers: seq<Reviewer>, app: Application, prior: seq<Assignment>, i: int): real
    requires 0 <= i < |reviewers|
  {
    Score(Working(reviewers[i], prior), app)
  }

  /** `reviewers[j]` is the first reviewer with the highest score for `app`
      under the working loads left by `prior`. */
  ghost predicate IsBestAt(reviewers: seq<Reviewer>, app: Application, prior: seq<Assignment>, j: int) {
    && 0 <= j < |reviewers|
    && (forall i :: 0 <= i < |reviewers| ==>
          WorkingScore(reviewers, app, prior, i) <= WorkingScore(reviewers, app, prior, j))
    && (forall i :: 0 <= i < j ==>
          WorkingScore(reviewers, app, prior, i) < WorkingScore(reviewers, app, prior, j))
  }

  /** `a` assigns `app` to the best reviewer after `prior`, with the score
      that reviewer had under its working load. */
  ghost predicate GreedyPick(reviewers: seq<Reviewer>, app: Application, prior: seq<Assignment>, a: Assignment) {
    exists j :: IsBestAt(reviewers, app, prior, j)
      && a == Assignment(app.id, reviewers[j].id, WorkingScore(reviewers, app, prior, j))
  }

  /** One entry of `ranked`: a score and the working copy it was computed for. */
  type Ranked = (real, Reviewer)

  /** `ranked.sort(key=score, reverse=True)`: a higher score comes first. */
  predicate RankBefore(a: Ranked, b: Ranked) {
    a.0 > b.0
  }

  lemma RankBeforeIsStrictWeakOrder()
    ensures StrictWeakOrder(RankBefore)
  {
  }

  /** The working counters hold every reviewer's snapshot load plus the
      assignments made so far. */
  ghost predicate WorkingInSync(reviewers: seq<Reviewer>, working: map<int, int>, prior: seq<Assignment>) {
    forall k :: 0 <= k < |reviewers| ==>
      reviewers[k].id in working && working[reviewers[k].id] == Working(reviewers[k], prior).assignedCount
  }

  /** The `ranked` list for one application: each reviewer's working copy
      and its score, in enumeration order. */
  method Rank(reviewers: seq<Reviewer>, working: map<int, int>, application: Application, prior: seq<Assignment>)
    returns (ranked: seq<Ranked>)
    requires WorkingInSync(reviewers, working, prior)
    ensures |ranked| == |reviewers|
    ensures forall k :: 0 <= k < |reviewers| ==>
              ranked[k] == (WorkingScore(reviewers, application, prior, k), Working(reviewers[k], prior))
  {
    ranked := [];
    for i := 0 to |reviewers|
      invariant |ranked| == i
      invariant forall k :: 0 <= k < i ==>
                  ranked[k] == (WorkingScore(reviewers, application, prior, k), Working(reviewers[k], prior))
    {
      var temp := reviewers[i].(assignedCount := working[reviewers[i].id]);
      ranked := ranked + [(Score(temp, application), temp)];
    }
  }

  /** The head of the sorted ranking is the first reviewer with the highest
      working score. */
  lemma RankedHeadIsBest(reviewers: seq<Reviewer>, application: Application, prior: seq<Assignment>, ranked: seq<Ranked>)
    returns (j: nat)
    requires |ranked| == |reviewers| > 0
    requires forall k :: 0 <= k < |reviewers| ==>
               ranked[k] == (WorkingScore(reviewers, application, prior, k), Working(reviewers[k], prior))
    ensures j < |reviewers| && IsBestAt(reviewers, application, prior, j)
    ensures SortBy(ranked, RankBefore)[0] == ranked[j]
  {
    RankBeforeIsStrictWeakOrder();
    j := SortByHead(ranked, RankBefore);
    forall i | 0 <= i < j
      ensures WorkingScore(reviewers, application, prior, i) < WorkingScore(reviewers, application, prior, j)
    {
      assert RankBefore(ranked[j], ranked[i]);
    }
    forall i | 0 <= i < |reviewers|
      ensures WorkingScore(reviewers, application, prior, i) <= WorkingScore(reviewers, application, prior, j)
    {
      assert !RankBefore(ranked[i], ranked[j]);
    }
  }

  /** Recording a pick for `reviewers[j]` and bumping its counter keeps the
      counters in step. */
  lemma WorkingAfterPick(reviewers: seq<Reviewer>, working: map<int, int>, prior: seq<Assignment>, a: Assignment, j: nat)
    requires DistinctIds(reviewers) && j < |reviewers| && a.reviewerId == reviewers[j].id
    requires WorkingInSync(reviewers, working, prior)
    ensures WorkingInSync(reviewers, working[a.reviewerId := working[a.reviewerId] + 1], prior + [a])
  {
    var next := prior + [a];
    assert next[..|next| - 1] == prior;
    forall k | 0 <= k < |reviewers|
      ensures reviewers[k].id == a.reviewerId <==> k == j
    {
    }
  }

  /** `plan_assignments`: applications in the given order, each to the
      reviewer ranked first under the working loads, whose working load
      then rises by one. */
  method PlanAssignments(reviewers: seq<Reviewer>, applications: seq<Application>)
    returns (result: Result<seq<Assignment>, AllocationError>)
    requires DistinctIds(reviewers)
    ensures result.Err? <==> |reviewers| == 0 && |applications| > 0
    ensures result.Ok? ==> |result.value| == |applications|
    ensures result.Ok? ==> forall k :: 0 <= k < |applications| ==>
              GreedyPick(reviewers, applications[k], result.value[..k], result.value[k])
  {
    var working: map<int, int> := map[];
    for i := 0 to |reviewers|
      invariant forall k :: 0 <= k < i ==> reviewers[k].id in working && working[reviewers[k].id] == reviewers[k].assignedCount
    {
      working := working[reviewers[i].id := reviewers[i].assignedCount];
    }

    var assignments: seq<Assignment> := [];
    for n := 0 to |applications|
      invariant |assignments| == n
      invariant WorkingInSync(reviewers, working, assignments)
      invariant forall k :: 0 <= k < n ==>
                  GreedyPick(reviewers, applications[k], assignments[..k], assignments[k])
    {
      var application := applications[n];
      var ranked := Rank(reviewers, working, application, assignments);
      if |ranked| == 0 {
        return Err(EmptyRanking);
      }
      var sorted := SortBy(ranked, RankBefore);
      var j := RankedHeadIsBest(reviewers, application, assignments, ranked);
      var (bestScore, bestReviewer) := sorted[0];
      var a := Assignment(application.id, bestReviewer.id, bestScore);
      WorkingAfterPick(reviewers, working, assignments, a, j);
      working := working[bestReviewer.id := working[bestReviewer.id] + 1];
      var prior := assignments;
      assignments := assignments + [a];
      assert assignments[..n] == prior;
      forall k | 0 <= k < n
        ensures GreedyPick(reviewers, applications[k], assignments[..k], assignments[k])
      {
        assert assignments[..k] == prior[..k];
      }
      assert GreedyPick(reviewers, applications[n], assignments[..n], assignments[n]);
    }
    return Ok(assignments);
  }
}
