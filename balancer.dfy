/** The reviewer-first planner of `balancer.plan_assignments`: pending
    applications in queue order, each given reviewers until it has the
    reviews it needs, always to the eligible reviewer with the least load,
    then the most tag overlap, then the first name. The database snapshot
    it starts from (reviewer rows, active loads, existing pairs, conflicts,
    pending applications, review counts per application) is passed in. */
module Balancer {
  import opened Wrappers
  import opened Sorting
  import opened Collections

  /** An active reviewer row; `expertise_tags` may be NULL. */
  datatype ReviewerRow = ReviewerRow(id: int, name: string, maxLoad: int, expertiseTags: Option<seq<string>>)

  /** A pending application row; `topic_tags` may be NULL. */
  datatype PendingApp = PendingApp(id: int, topicTags: Option<seq<string>>, needsReviews: int)

  /** The two numbers behind the reason text `overlap:<o> load:<l>`. */
  datatype Reason = Reason(overlap: nat, load: int)

  datatype AssignmentPlan = AssignmentPlan(applicationId: int, reviewerId: int, reason: Reason)

  /** Sorting the eligible tuples compares the reviewer dicts themselves
      when two tuples agree on load, overlap and name, and dicts are not
      ordered: a TypeError for that application. */
  datatype PlanError = UnorderableTie(applicationId: int)

  ghost predicate DistinctIds(reviewers: seq<ReviewerRow>) {
    forall i, j :: 0 <= i < j < |reviewers| ==> reviewers[i].id != reviewers[j].id
  }

  ghost predicate DistinctAppIds(apps: seq<PendingApp>) {
    forall i, j :: 0 <= i < j < |apps| ==> apps[i].id != apps[j].id
  }

  /** `tags or []` */
  function OrEmpty(tags: Option<seq<string>>): seq<string> {
    if tags.Some? then tags.value else []
  }

  /** `_tag_overlap`: the number of distinct tags the two lists share. */
  function TagOverlap(appTags: Option<seq<string>>, reviewerTags: Option<seq<string>>): (n: nat)
    ensures n <= |SetOf(OrEmpty(appTags))| && n <= |SetOf(OrEmpty(reviewerTags))|
    ensures n == 0 <==> forall t :: t in OrEmpty(appTags) ==> t !in OrEmpty(reviewerTags)
    ensures appTags.None? || reviewerTags.None? ==> n == 0
  {
    var common := SetOf(OrEmpty(appTags)) * SetOf(OrEmpty(reviewerTags));
    SubsetSize(common, SetOf(OrEmpty(appTags)));
    SubsetSize(common, SetOf(OrEmpty(reviewerTags)));
    assert (exists t :: t in OrEmpty(appTags) && t in OrEmpty(reviewerTags)) ==> |common| > 0 by {
      if t :| t in OrEmpty(appTags) && t in OrEmpty(reviewerTags) {
        assert t in common;
      }
    }
    |common|
  }

  /** `existing_assignments.get(app_id, set())` */
  function Existing(existing: map<int, set<int>>, appId: int): set<int> {
    if appId in existing then existing[appId] else {}
  }

  /** One eligible tuple `(load, -overlap, name, reviewer, overlap)`. */
  datatype Entry = Entry(load: int, overlap: nat, name: string, reviewer: ReviewerRow)

  /** Tuple order on `(load, -overlap, name)`. */
  predicate EntryBefore(a: Entry, b: Entry) {
    || a.load < b.load
    || (a.load == b.load && a.overlap > b.overlap)
    || (a.load == b.load && a.overlap == b.overlap && StrLess(a.name, b.name))
  }

  /** The two tuples agree up to the reviewer dict. */
  predicate Tied(a: Entry, b: Entry) {
    a.load == b.load && a.overlap == b.overlap && a.name == b.name
  }

  lemma EntryBeforeIsStrictWeakOrder()
    ensures StrictWeakOrder(EntryBefore)
  {
    forall a: Entry, b: Entry | EntryBefore(a, b)
      ensures !EntryBefore(b, a)
    {
      StrLessTotal(a.name, b.name);
    }
    forall a: Entry, b: Entry, c: Entry | !EntryBefore(a, b) && !EntryBefore(b, c)
      ensures !EntryBefore(a, c)
    {
      StrLessTotal(a.name, b.name);
      StrLessTotal(b.name, c.name);
      StrLessTotal(a.name, c.name);
      if StrLess(c.name, b.name) && StrLess(b.name, a.name) {
        StrLessTransitive(c.name, b.name, a.name);
      }
    }
  }

  /** Untied tuples are ordered one way or the other. */
  lemma EntryBeforeTotal(a: Entry, b: Entry)
    ensures !Tied(a, b) <==> EntryBefore(a, b) || EntryBefore(b, a)
  {
    StrLessTotal(a.name, b.name);
  }

  /** The sort never has to compare two reviewer dicts. */
  predicate NoTies(es: seq<Entry>) {
    forall i, j :: 0 <= i < j < |es| ==> !Tied(es[i], es[j])
  }

  /** The reviewer may take the application: under its `max_load`, not in
      conflict with it, not already paired with it. */
  predicate CanTake(r: ReviewerRow, loads: map<int, int>, existing: map<int, set<int>>,
                    conflicts: set<(int, int)>, appId: int)
  {
    Get(loads, r.id) < r.maxLoad && (r.id, appId) !in conflicts && r.id !in Existing(existing, appId)
  }

  function EntryFor(r: ReviewerRow, loads: map<int, int>, app: PendingApp): Entry {
    Entry(Get(loads, r.id), TagOverlap(app.topicTags, r.expertiseTags), r.name, r)
  }

  /** The `eligible` list, in reviewer order. */
  function Eligible(rs: seq<ReviewerRow>, loads: map<int, int>, existing: map<int, set<int>>,
                    conflicts: set<(int, int)>, app: PendingApp): seq<Entry>
  {
    if rs == [] then []
    else
      var r := rs[|rs| - 1];
      Eligible(rs[..|rs| - 1], loads, existing, conflicts, app)
        + (if CanTake(r, loads, existing, conflicts, app.id) then [EntryFor(r, loads, app)] else [])
  }

  /** Every eligible tuple belongs to a reviewer who can take the
      application, and describes that reviewer's current load and overlap. */
  lemma {:induction false} EligibleMembers(rs: seq<ReviewerRow>, loads: map<int, int>, existing: map<int, set<int>>,
                                           conflicts: set<(int, int)>, app: PendingApp, e: Entry)
    ensures e in Eligible(rs, loads, existing, conflicts, app) <==>
            e.reviewer in rs && CanTake(e.reviewer, loads, existing, conflicts, app.id) && e == EntryFor(e.reviewer, loads, app)
  {
    if rs != [] {
      EligibleMembers(rs[..|rs| - 1], loads, existing, conflicts, app, e);
      assert rs == rs[..|rs| - 1] + [rs[|rs| - 1]];
    }
  }

  /** The planner's working state: `reviewer_loads`, `existing_assignments`,
      `planned` and `assignments_remaining` (None for no limit). */
  datatype State = State(loads: map<int, int>, existing: map<int, set<int>>, planned: seq<AssignmentPlan>, budget: Option<int>)

  /** `assignments_remaining <= 0` */
  predicate Spent(budget: Option<int>) {
    budget.Some? && budget.value <= 0
  }

  /** The choice for one more review of `app`: None when nobody is
      eligible, else the head of the sorted tuples. */
  function Pick(reviewers: seq<ReviewerRow>, conflicts: set<(int, int)>, app: PendingApp, st: State)
    : Result<Option<Entry>, PlanError>
  {
    var es := Eligible(reviewers, st.loads, st.existing, conflicts, app);
    if es == [] then Ok(None)
    else if !NoTies(es) then Err(UnorderableTie(app.id))
    else Ok(Some(Least(es)))
  }

  /** Record the choice: plan it with the reviewer's load before the pick,
      raise that load, pair the two, spend one unit of the limit. */
  function Take(st: State, appId: int, e: Entry): State {
    var id := e.reviewer.id;
    State(st.loads[id := Get(st.loads, id) + 1],
          st.existing[appId := Existing(st.existing, appId) + {id}],
          st.planned + [AssignmentPlan(appId, id, Reason(e.overlap, Get(st.loads, id)))],
          if st.budget.Some? then Some(st.budget.value - 1) else None)
  }

  /** Up to `k` more reviews for `app`, stopping early when the limit is
      spent or nobody is eligible. */
  function Fill(reviewers: seq<ReviewerRow>, conflicts: set<(int, int)>, app: PendingApp, k: nat, st: State)
    : Result<State, PlanError>
    decreases k
  {
    if k == 0 || Spent(st.budget) then Ok(st)
    else
      match Pick(reviewers, conflicts, app, st)
      case Err(e) => Err(e)
      case Ok(None) => Ok(st)
      case Ok(Some(e)) => Fill(reviewers, conflicts, app, k - 1, Take(st, app.id, e))
  }

  /** `max(needs_reviews - assigned_count, 0)` */
  function Need(app: PendingApp, counts: map<int, int>): nat {
    if app.needsReviews - Get(counts, app.id) > 0 then app.needsReviews - Get(counts, app.id) else 0
  }

  /** The pending applications in order, until the limit is spent. */
  function Run(reviewers: seq<ReviewerRow>, conflicts: set<(int, int)>, counts: map<int, int>, apps: seq<PendingApp>, st: State)
    : Result<State, PlanError>
    decreases |apps|
  {
    if apps == [] || Spent(st.budget) then Ok(st)
    else
      match Fill(reviewers, conflicts, apps[0], Need(apps[0], counts), st)
      case Err(e) => Err(e)
      case Ok(next) => Run(reviewers, conflicts, counts, apps[1..], next)
  }

  /** The plan of `plan_assignments(limit)` on a database snapshot. */
  function Plan(reviewers: seq<ReviewerRow>, loads: map<int, int>, existing: map<int, set<int>>,
                conflicts: set<(int, int)>, apps: seq<PendingApp>, counts: map<int, int>, limit: Option<int>)
    : Result<seq<AssignmentPlan>, PlanError>
  {
    match Run(reviewers, conflicts, counts, apps, State(loads, existing, [], limit))
    case Ok(st) => Ok(st.planned)
    case Err(e) => Err(e)
  }

  // ---------------------------------------------------------------------
  // The choice rule

  /** The first tuple that no later tuple comes strictly before. */
  function Least(es: seq<Entry>): Entry
    requires es != []
  {
    if |es| == 1 then es[0]
    else
      var m := Least(es[..|es| - 1]);
      if EntryBefore(es[|es| - 1], m) then es[|es| - 1] else m
  }

  /** No eligible tuple comes strictly before the least one. */
  lemma {:induction false} LeastIsLeast(es: seq<Entry>)
    requires es != []
    ensures Least(es) in es
    ensures forall x :: x in es ==> !EntryBefore(x, Least(es))
  {
    EntryBeforeIsStrictWeakOrder();
    if |es| > 1 {
      var init, last := es[..|es| - 1], es[|es| - 1];
      LeastIsLeast(init);
      assert es == init + [last];
      var m := Least(init);
      forall x | x in es ensures !EntryBefore(x, Least(es)) {
        if x in init && EntryBefore(last, m) {
          assert !EntryBefore(x, m);
          assert !EntryBefore(m, last);
        }
      }
    }
  }

  /** Without ties the least tuple is strictly before every other one. */
  lemma LeastIsStrictlyLeast(es: seq<Entry>)
    requires es != [] && NoTies(es)
    ensures forall x :: x in es && x != Least(es) ==> EntryBefore(Least(es), x)
  {
    LeastIsLeast(es);
    var m := Least(es);
    var k :| 0 <= k < |es| && es[k] == m;
    forall x | x in es && x != m
      ensures EntryBefore(m, x)
    {
      var i :| 0 <= i < |es| && es[i] == x;
      assert !Tied(es[i], es[k]) by {
        if i < k {
          assert !Tied(es[i], es[k]);
        } else {
          assert i != k;
          assert !Tied(es[k], es[i]);
        }
      }
      EntryBeforeTotal(es[i], es[k]);
    }
  }

  /** `eligible.sort()` followed by `eligible[0]` takes the least tuple. */
  lemma SortedHeadIsLeast(es: seq<Entry>)
    requires es != [] && NoTies(es)
    ensures SortBy(es, EntryBefore)[0] == Least(es)
  {
    EntryBeforeIsStrictWeakOrder();
    var k := SortByHead(es, EntryBefore);
    LeastIsStrictlyLeast(es);
    LeastIsLeast(es);
    var i :| 0 <= i < |es| && es[i] == Least(es);
    assert !EntryBefore(es[i], es[k]);
  }

  /** The chosen reviewer can take the application. */
  lemma PickIsEligible(reviewers: seq<ReviewerRow>, conflicts: set<(int, int)>, app: PendingApp, st: State, e: Entry)
    requires Pick(reviewers, conflicts, app, st) == Ok(Some(e))
    ensures e.reviewer in reviewers && CanTake(e.reviewer, st.loads, st.existing, conflicts, app.id)
  {
    LeastIsLeast(Eligible(reviewers, st.loads, st.existing, conflicts, app));
    EligibleMembers(reviewers, st.loads, st.existing, conflicts, app, e);
  }

  /** The chosen tuple is eligible and strictly before every other
      eligible tuple: least load, then most overlap, then first name. */
  lemma PickIsLeast(reviewers: seq<ReviewerRow>, conflicts: set<(int, int)>, app: PendingApp, st: State)
    ensures var es, p := Eligible(reviewers, st.loads, st.existing, conflicts, app), Pick(reviewers, conflicts, app, st);
            && (p == Ok(None) <==> es == [])
            && (p.Ok? && p.value.Some? ==>
                  p.value.value in es && forall x :: x in es && x != p.value.value ==> EntryBefore(p.value.value, x))
            && (p.Err? <==> exists i, j :: 0 <= i < j < |es| && Tied(es[i], es[j]))
  {
    var es := Eligible(reviewers, st.loads, st.existing, conflicts, app);
    if es != [] && NoTies(es) {
      LeastIsLeast(es);
      LeastIsStrictlyLeast(es);
    } else if es != [] {
      assert Pick(reviewers, conflicts, app, st) == Err(UnorderableTie(app.id));
      assert exists i, j :: 0 <= i < j < |es| && Tied(es[i], es[j]);
    }
  }

  /** With nobody eligible the application gets no review at all, and
      planning moves on to the next application. */
  lemma NoEligibleSkipsApplication(reviewers: seq<ReviewerRow>, conflicts: set<(int, int)>, counts: map<int, int>,
                                   apps: seq<PendingApp>, st: State)
    requires apps != [] && !Spent(st.budget)
    requires Eligible(reviewers, st.loads, st.existing, conflicts, apps[0]) == []
    ensures Run(reviewers, conflicts, counts, apps, st) == Run(reviewers, conflicts, counts, apps[1..], st)
  {
  }

  // ---------------------------------------------------------------------
  // Safety of the plan

  /** Plans for reviewer `id`. */
  function CountTo(ps: seq<AssignmentPlan>, id: int): nat {
    if ps == [] then 0
    else CountTo(ps[..|ps| - 1], id) + (if ps[|ps| - 1].reviewerId == id then 1 else 0)
  }

  /** Plans for application `id`. */
  function CountFor(ps: seq<AssignmentPlan>, id: int): nat {
    if ps == [] then 0
    else CountFor(ps[..|ps| - 1], id) + (if ps[|ps| - 1].applicationId == id then 1 else 0)
  }

  function Budget(limit: Option<int>, used: int): Option<int> {
    if limit.Some? then Some(limit.value - used) else None
  }

  /** What planning keeps true from the snapshot `init` onwards. */
  ghost predicate Safe(reviewers: seq<ReviewerRow>, conflicts: set<(int, int)>, init: State, st: State) {
    SafeBudget(init, st) && SafeLoads(reviewers, init, st) && SafePairs(conflicts, init, st)
  }

  /** Every plan spent one unit of the limit. */
  ghost predicate SafeBudget(init: State, st: State) {
    && st.budget == Budget(init.budget, |st.planned|)
    && (init.budget.Some? ==> |st.planned| <= if init.budget.value > 0 then init.budget.value else 0)
  }

  /** Every plan raised its reviewer's load by one, and never past
      `max_load`. */
  ghost predicate SafeLoads(reviewers: seq<ReviewerRow>, init: State, st: State) {
    var ps := st.planned;
    && (forall id :: Get(st.loads, id) == Get(init.loads, id) + CountTo(ps, id))
    && (forall i :: 0 <= i < |reviewers| ==>
          var r := reviewers[i];
          Get(init.loads, r.id) + CountTo(ps, r.id) <= if Get(init.loads, r.id) > r.maxLoad then Get(init.loads, r.id) else r.maxLoad)
  }

  /** Every plan is a new pair outside the conflicts, recorded as
      existing. */
  ghost predicate SafePairs(conflicts: set<(int, int)>, init: State, st: State) {
    var ps := st.planned;
    && (forall a :: Existing(init.existing, a) <= Existing(st.existing, a))
    && (forall i :: 0 <= i < |ps| ==> ps[i].reviewerId in Existing(st.existing, ps[i].applicationId))
    && (forall i :: 0 <= i < |ps| ==>
          (ps[i].reviewerId, ps[i].applicationId) !in conflicts && ps[i].reviewerId !in Existing(init.existing, ps[i].applicationId))
    && (forall i, j :: 0 <= i < j < |ps| ==>
          (ps[i].applicationId, ps[i].reviewerId) != (ps[j].applicationId, ps[j].reviewerId))
  }

  lemma TakeBudget(init: State, st: State, appId: int, e: Entry)
    requires SafeBudget(init, st) && !Spent(st.budget)
    ensures SafeBudget(init, Take(st, appId, e))
  {
  }

  lemma TakeLoads(reviewers: seq<ReviewerRow>, init: State, st: State, appId: int, e: Entry)
    requires DistinctIds(reviewers) && SafeLoads(reviewers, init, st)
    requires e.reviewer in reviewers && Get(st.loads, e.reviewer.id) < e.reviewer.maxLoad
    ensures SafeLoads(reviewers, init, Take(st, appId, e))
  {
    var next := Take(st, appId, e);
    var ps, id := st.planned, e.reviewer.id;
    assert next.planned[..|ps|] == ps;
    forall x ensures CountTo(next.planned, x) == CountTo(ps, x) + (if x == id then 1 else 0) {
    }
    var j :| 0 <= j < |reviewers| && reviewers[j] == e.reviewer;
    forall i | 0 <= i < |reviewers| && reviewers[i].id == id
      ensures i == j
    {
    }
  }

  lemma PickLoads(reviewers: seq<ReviewerRow>, conflicts: set<(int, int)>, init: State, st: State, app: PendingApp, e: Entry)
    requires DistinctIds(reviewers) && SafeLoads(reviewers, init, st)
    requires Pick(reviewers, conflicts, app, st) == Ok(Some(e))
    ensures SafeLoads(reviewers, init, Take(st, app.id, e))
  {
    PickIsEligible(reviewers, conflicts, app, st, e);
    TakeLoads(reviewers, init, st, app.id, e);
  }

  lemma TakePairs(conflicts: set<(int, int)>, init: State, st: State, appId: int, e: Entry)
    requires SafePairs(conflicts, init, st)
    requires (e.reviewer.id, appId) !in conflicts && e.reviewer.id !in Existing(st.existing, appId)
    ensures SafePairs(conflicts, init, Take(st, appId, e))
  {
    var next := Take(st, appId, e);
    var ps := st.planned;
    var p := next.planned[|ps|];
    assert next.planned[..|ps|] == ps;
    forall i | 0 <= i < |ps|
      ensures (ps[i].applicationId, ps[i].reviewerId) != (p.applicationId, p.reviewerId)
    {
    }
  }

  /** A successful choice moves on to the next review with the choice
      recorded. */
  lemma FillTakes(reviewers: seq<ReviewerRow>, conflicts: set<(int, int)>, app: PendingApp, k: nat, st: State, e: Entry)
    requires k > 0 && !Spent(st.budget) && Pick(reviewers, conflicts, app, st) == Ok(Some(e))
    ensures Fill(reviewers, conflicts, app, k, st) == Fill(reviewers, conflicts, app, k - 1, Take(st, app.id, e))
  {
  }

  lemma {:induction false} FillKeepsBudget(reviewers: seq<ReviewerRow>, conflicts: set<(int, int)>, init: State,
                                           app: PendingApp, k: nat, st: State, result: State)
    requires SafeBudget(init, st)
    requires Fill(reviewers, conflicts, app, k, st) == Ok(result)
    ensures SafeBudget(init, result)
    decreases k
  {
    var p := Pick(reviewers, conflicts, app, st);
    if k > 0 && !Spent(st.budget) && p.Ok? && p.value.Some? {
      var e := p.value.value;
      TakeBudget(init, st, app.id, e);
      FillTakes(reviewers, conflicts, app, k, st, e);
      FillKeepsBudget(reviewers, conflicts, init, app, k - 1, Take(st, app.id, e), result);
    }
  }

  lemma {:induction false} FillKeepsLoads(reviewers: seq<ReviewerRow>, conflicts: set<(int, int)>, init: State,
                                          app: PendingApp, k: nat, st: State, result: State)
    requires DistinctIds(reviewers)
    requires Fill(reviewers, conflicts, app, k, st) == Ok(result)
    ensures SafeLoads(reviewers, init, st) ==> SafeLoads(reviewers, init, result)
    decreases k
  {
    var p := Pick(reviewers, conflicts, app, st);
    if k > 0 && !Spent(st.budget) && p.Ok? && p.value.Some? {
      var e := p.value.value;
      FillTakes(reviewers, conflicts, app, k, st, e);
      FillKeepsLoads(reviewers, conflicts, init, app, k - 1, Take(st, app.id, e), result);
      if SafeLoads(reviewers, init, st) {
        PickLoads(reviewers, conflicts, init, st, app, e);
      }
    }
  }

  lemma {:induction false} FillKeepsPairs(reviewers: seq<ReviewerRow>, conflicts: set<(int, int)>, init: State,
                                          app: PendingApp, k: nat, st: State, result: State)
    requires SafePairs(conflicts, init, st)
    requires Fill(reviewers, conflicts, app, k, st) == Ok(result)
    ensures SafePairs(conflicts, init, result)
    decreases k
  {
    var p := Pick(reviewers, conflicts, app, st);
    if k > 0 && !Spent(st.budget) && p.Ok? && p.value.Some? {
      var e := p.value.value;
      PickIsEligible(reviewers, conflicts, app, st, e);
      TakePairs(conflicts, init, st, app.id, e);
      FillTakes(reviewers, conflicts, app, k, st, e);
      FillKeepsPairs(reviewers, conflicts, init, app, k - 1, Take(st, app.id, e), result);
    }
  }

  /** Giving one application its reviews keeps the plan safe. */
  lemma FillSafe(reviewers: seq<ReviewerRow>, conflicts: set<(int, int)>, init: State,
                 app: PendingApp, k: nat, st: State)
    requires DistinctIds(reviewers) && Safe(reviewers, conflicts, init, st)
    ensures var r := Fill(reviewers, conflicts, app, k, st);
            r.Ok? ==> Safe(reviewers, conflicts, init, r.value)
  {
    var r := Fill(reviewers, conflicts, app, k, st);
    if r.Ok? {
      FillKeepsBudget(reviewers, conflicts, init, app, k, st, r.value);
      FillKeepsLoads(reviewers, conflicts, init, app, k, st, r.value);
      FillKeepsPairs(reviewers, conflicts, init, app, k, st, r.value);
    }
  }

  lemma {:induction false} RunSafe(reviewers: seq<ReviewerRow>, conflicts: set<(int, int)>, counts: map<int, int>,
                                   init: State, apps: seq<PendingApp>, st: State)
    requires DistinctIds(reviewers) && Safe(reviewers, conflicts, init, st)
    ensures var r := Run(reviewers, conflicts, counts, apps, st);
            r.Ok? ==> Safe(reviewers, conflicts, init, r.value)
    decreases |apps|
  {
    if apps != [] && !Spent(st.budget) {
      var app := apps[0];
      FillSafe(reviewers, conflicts, init, app, Need(app, counts), st);
      match Fill(reviewers, conflicts, app, Need(app, counts), st)
      case Err(_) =>
      case Ok(next) => RunSafe(reviewers, conflicts, counts, init, apps[1..], next);
    }
  }

  /** Planning never plans a conflicting pair, never repeats a pair that
      exists or was planned before, never takes more than `limit` plans,
      and never lifts a reviewer's load past `max_load` (a reviewer already
      above it gets nothing). */
  lemma PlanIsSafe(reviewers: seq<ReviewerRow>, loads: map<int, int>, existing: map<int, set<int>>,
                   conflicts: set<(int, int)>, apps: seq<PendingApp>, counts: map<int, int>, limit: Option<int>)
    requires DistinctIds(reviewers)
    ensures var result := Plan(reviewers, loads, existing, conflicts, apps, counts, limit);
            result.Ok? ==>
              var ps := result.value;
              && (limit.Some? ==> |ps| <= if limit.value > 0 then limit.value else 0)
              && (forall i :: 0 <= i < |ps| ==>
                    (ps[i].reviewerId, ps[i].applicationId) !in conflicts
                    && ps[i].reviewerId !in Existing(existing, ps[i].applicationId))
              && (forall i, j :: 0 <= i < j < |ps| ==>
                    (ps[i].applicationId, ps[i].reviewerId) != (ps[j].applicationId, ps[j].reviewerId))
              && (forall r :: r in reviewers ==>
                    Get(loads, r.id) + CountTo(ps, r.id) <= if Get(loads, r.id) > r.maxLoad then Get(loads, r.id) else r.maxLoad)
  {
    var init := State(loads, existing, [], limit);
    RunSafe(reviewers, conflicts, counts, init, apps, init);
  }

  // ---------------------------------------------------------------------
  // Reviews per application

  /** Appending plans that all concern application `aid` raises only that
      application's count. */
  lemma {:induction false} CountForBlock(xs: seq<AssignmentPlan>, ys: seq<AssignmentPlan>, aid: int, id: int)
    requires |xs| <= |ys| && ys[..|xs|] == xs
    requires forall j :: |xs| <= j < |ys| ==> ys[j].applicationId == aid
    ensures CountFor(ys, id) == CountFor(xs, id) + (if id == aid then |ys| - |xs| else 0)
    decreases |ys|
  {
    if |ys| > |xs| {
      var init := ys[..|ys| - 1];
      assert init[..|xs|] == xs;
      CountForBlock(xs, init, aid, id);
    } else {
      assert ys == xs;
    }
  }

  /** One application's turn appends at most `k` plans, all for it. */
  lemma {:induction false} FillBlock(reviewers: seq<ReviewerRow>, conflicts: set<(int, int)>, app: PendingApp, k: nat, st: State)
    ensures var r := Fill(reviewers, conflicts, app, k, st);
            r.Ok? ==>
              && |st.planned| <= |r.value.planned| <= |st.planned| + k
              && r.value.planned[..|st.planned|] == st.planned
              && forall j :: |st.planned| <= j < |r.value.planned| ==> r.value.planned[j].applicationId == app.id
    decreases k
  {
    var r := Fill(reviewers, conflicts, app, k, st);
    if k == 0 || Spent(st.budget) {
      assert r == Ok(st);
    } else {
      var p := Pick(reviewers, conflicts, app, st);
      if p.Err? {
        assert r.Err?;
      } else if p.value.None? {
        assert r == Ok(st);
      } else {
        var next := Take(st, app.id, p.value.value);
        var r' := Fill(reviewers, conflicts, app, k - 1, next);
        assert r == r';
        assert |next.planned| == |st.planned| + 1 && next.planned[..|st.planned|] == st.planned;
        assert next.planned[|st.planned|].applicationId == app.id;
        FillBlock(reviewers, conflicts, app, k - 1, next);
        if r'.Ok? {
          var ps, qs := r'.value.planned, next.planned;
          assert ps[..|st.planned|] == qs[..|st.planned|];
          assert forall j :: |st.planned| <= j < |ps| ==> ps[j].applicationId == app.id;
          assert |qs| <= |ps| <= |qs| + (k - 1);
          assert |st.planned| <= |ps| <= |st.planned| + k;
        }
      }
    }
  }

  lemma {:induction false} RunPerApplication(reviewers: seq<ReviewerRow>, conflicts: set<(int, int)>, counts: map<int, int>,
                                             apps: seq<PendingApp>, st: State)
    requires DistinctAppIds(apps)
    ensures var r := Run(reviewers, conflicts, counts, apps, st);
            r.Ok? ==>
              && (forall a :: a in apps ==> CountFor(r.value.planned, a.id) <= CountFor(st.planned, a.id) + Need(a, counts))
              && (forall id :: (forall a :: a in apps ==> a.id != id) ==> CountFor(r.value.planned, id) == CountFor(st.planned, id))
    decreases |apps|
  {
    if apps != [] && !Spent(st.budget) {
      var app := apps[0];
      FillBlock(reviewers, conflicts, app, Need(app, counts), st);
      match Fill(reviewers, conflicts, app, Need(app, counts), st)
      case Err(_) =>
      case Ok(next) =>
        var rest := apps[1..];
        assert DistinctAppIds(rest) by {
          forall i, j | 0 <= i < j < |rest| ensures rest[i].id != rest[j].id {
            assert rest[i] == apps[i + 1] && rest[j] == apps[j + 1];
          }
        }
        RunPerApplication(reviewers, conflicts, counts, rest, next);
        forall id ensures CountFor(next.planned, id) == CountFor(st.planned, id) + (if id == app.id then |next.planned| - |st.planned| else 0) {
          CountForBlock(st.planned, next.planned, app.id, id);
        }
        forall a | a in rest ensures a.id != app.id {
          var i :| 0 <= i < |rest| && rest[i] == a;
          assert apps[i + 1] == a;
        }
        assert apps == [app] + rest;
    }
  }

  /** No application gets more plans than `max(needs_reviews - assigned, 0)`. */
  lemma PlanPerApplication(reviewers: seq<ReviewerRow>, loads: map<int, int>, existing: map<int, set<int>>,
                           conflicts: set<(int, int)>, apps: seq<PendingApp>, counts: map<int, int>, limit: Option<int>)
    requires DistinctAppIds(apps)
    ensures var result := Plan(reviewers, loads, existing, conflicts, apps, counts, limit);
            result.Ok? ==>
              && (forall a :: a in apps ==> CountFor(result.value, a.id) <= Need(a, counts))
              && (forall i :: 0 <= i < |result.value| ==> exists a :: a in apps && a.id == result.value[i].applicationId)
  {
    var init := State(loads, existing, [], limit);
    RunPerApplication(reviewers, conflicts, counts, apps, init);
    var result := Plan(reviewers, loads, existing, conflicts, apps, counts, limit);
    if result.Ok? {
      var ps := result.value;
      forall i | 0 <= i < |ps| ensures exists a :: a in apps && a.id == ps[i].applicationId {
        if forall a :: a in apps ==> a.id != ps[i].applicationId {
          CountForPositive(ps, i);
        }
      }
    }
  }

  lemma {:induction false} CountForPositive(ps: seq<AssignmentPlan>, i: nat)
    requires i < |ps|
    ensures CountFor(ps, ps[i].applicationId) > 0
  {
    if i < |ps| - 1 {
      CountForPositive(ps[..|ps| - 1], i);
    }
  }

  // ---------------------------------------------------------------------
  // The planning loop

  /** The inner `for reviewer in reviewers` loop. */
  method CollectEligible(reviewers: seq<ReviewerRow>, loads: map<int, int>, existing: map<int, set<int>>,
                         conflicts: set<(int, int)>, app: PendingApp)
    returns (eligible: seq<Entry>)
    ensures eligible == Eligible(reviewers, loads, existing, conflicts, app)
  {
    eligible := [];
    for k := 0 to |reviewers|
      invariant eligible == Eligible(reviewers[..k], loads, existing, conflicts, app)
    {
      var reviewer := reviewers[k];
      assert reviewers[..k + 1][..k] == reviewers[..k];
      if Get(loads, reviewer.id) >= reviewer.maxLoad {
        continue;
      }
      if (reviewer.id, app.id) in conflicts {
        continue;
      }
      if reviewer.id in Existing(existing, app.id) {
        continue;
      }
      var overlap := TagOverlap(app.topicTags, reviewer.expertiseTags);
      eligible := eligible + [Entry(Get(loads, reviewer.id), overlap, reviewer.name, reviewer)];
    }
    assert reviewers[..|reviewers|] == reviewers;
  }

  /** `eligible.sort()` and `eligible[0]`, once the sort cannot fail. */
  method SortedHead(eligible: seq<Entry>) returns (best: Entry)
    requires eligible != [] && NoTies(eligible)
    ensures best == Least(eligible)
  {
    var sorted := SortBy(eligible, EntryBefore);
    best := sorted[0];
    SortedHeadIsLeast(eligible);
  }

  /** One pass of the loop body up to the choice: collect the eligible
      reviewers, stop when there are none, sort and take the head. */
  method ChooseReviewer(reviewers: seq<ReviewerRow>, conflicts: set<(int, int)>, app: PendingApp, st: State)
    returns (choice: Result<Option<Entry>, PlanError>)
    ensures choice == Pick(reviewers, conflicts, app, st)
  {
    var eligible := CollectEligible(reviewers, st.loads, st.existing, conflicts, app);
    if |eligible| == 0 {
      return Ok(None);
    }
    if !NoTies(eligible) {
      return Err(UnorderableTie(app.id));
    }
    var best := SortedHead(eligible);
    return Ok(Some(best));
  }

  /** The `for _ in range(remaining)` loop for one application. */
  method ReviewApplication(reviewers: seq<ReviewerRow>, conflicts: set<(int, int)>, app: PendingApp, remaining: nat, start: State)
    returns (r: Result<State, PlanError>)
    ensures r == Fill(reviewers, conflicts, app, remaining, start)
  {
    var loads, existing, planned, budget := start.loads, start.existing, start.planned, start.budget;
    for j := 0 to remaining
      invariant Fill(reviewers, conflicts, app, remaining - j, State(loads, existing, planned, budget))
             == Fill(reviewers, conflicts, app, remaining, start)
    {
      var cur := State(loads, existing, planned, budget);
      if Spent(budget) {
        break;
      }
      var choice := ChooseReviewer(reviewers, conflicts, app, cur);
      if choice.Err? {
        return Err(choice.error);
      }
      if choice.value.None? {
        break;
      }
      var best := choice.value.value;
      var id := best.reviewer.id;
      planned := planned + [AssignmentPlan(app.id, id, Reason(best.overlap, Get(loads, id)))];
      loads := loads[id := Get(loads, id) + 1];
      existing := existing[app.id := Existing(existing, app.id) + {id}];
      budget := if budget.Some? then Some(budget.value - 1) else None;
      assert State(loads, existing, planned, budget) == Take(cur, app.id, best);
    }
    return Ok(State(loads, existing, planned, budget));
  }

  /** `plan_assignments(limit)` up to the database writes. */
  method PlanAssignments(reviewers: seq<ReviewerRow>, loads0: map<int, int>, existing0: map<int, set<int>>,
                         conflicts: set<(int, int)>, apps: seq<PendingApp>, counts: map<int, int>, limit: Option<int>)
    returns (result: Result<seq<AssignmentPlan>, PlanError>)
    requires DistinctIds(reviewers) && DistinctAppIds(apps)
    ensures result == Plan(reviewers, loads0, existing0, conflicts, apps, counts, limit)
    ensures result.Ok? ==>
              var ps := result.value;
              && (limit.Some? ==> |ps| <= if limit.value > 0 then limit.value else 0)
              && (forall i :: 0 <= i < |ps| ==>
                    (ps[i].reviewerId, ps[i].applicationId) !in conflicts
                    && ps[i].reviewerId !in Existing(existing0, ps[i].applicationId))
              && (forall i, j :: 0 <= i < j < |ps| ==>
                    (ps[i].applicationId, ps[i].reviewerId) != (ps[j].applicationId, ps[j].reviewerId))
              && (forall r :: r in reviewers ==>
                    Get(loads0, r.id) + CountTo(ps, r.id) <= if Get(loads0, r.id) > r.maxLoad then Get(loads0, r.id) else r.maxLoad)
              && (forall a :: a in apps ==> CountFor(ps, a.id) <= Need(a, counts))
  {
    var loads, existing, planned, budget := loads0, existing0, [], limit;
    ghost var init := State(loads0, existing0, [], limit);
    PlanIsSafe(reviewers, loads0, existing0, conflicts, apps, counts, limit);
    PlanPerApplication(reviewers, loads0, existing0, conflicts, apps, counts, limit);

    for i := 0 to |apps|
      invariant Run(reviewers, conflicts, counts, apps[i..], State(loads, existing, planned, budget))
             == Run(reviewers, conflicts, counts, apps, init)
    {
      if Spent(budget) {
        assert Run(reviewers, conflicts, counts, apps[i..], State(loads, existing, planned, budget))
            == Ok(State(loads, existing, planned, budget));
        break;
      }
      var app := apps[i];
      assert apps[i..][0] == app && apps[i..][1..] == apps[i + 1..];
      var remaining := if app.needsReviews - Get(counts, app.id) > 0 then app.needsReviews - Get(counts, app.id) else 0;
      if remaining == 0 {
        continue;
      }
      var r := ReviewApplication(reviewers, conflicts, app, remaining, State(loads, existing, planned, budget));
      if r.Err? {
        return Err(r.error);
      }
      loads, existing, planned, budget := r.value.loads, r.value.existing, r.value.planned, r.value.budget;
    }
    assert apps[|apps|..] == [];
    return Ok(planned);
  }
}
