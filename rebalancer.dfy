/** `propose_reassignments`: move active assignments from reviewers well
    above the system-wide utilisation to reviewers well below it. */
module Rebalancer {
  import opened Rounding
  import opened Sorting
  import opened Allocator
  import opened Collections

  /** `sum(capacity for reviewers if capacity > 0)` */
  function TotalCapacity(rs: seq<Reviewer>): int {
    if rs == [] then 0
    else
      var r := rs[|rs| - 1];
      TotalCapacity(rs[..|rs| - 1]) + (if r.capacity > 0 then r.capacity else 0)
  }

  /** `sum(assigned for reviewers)`, unusable reviewers included. */
  function TotalAssigned(rs: seq<Reviewer>): int {
    if rs == [] then 0 else TotalAssigned(rs[..|rs| - 1]) + rs[|rs| - 1].assignedCount
  }

  function Utilization(r: Reviewer): real
    requires r.capacity > 0
  {
    r.assignedCount as real / r.capacity as real
  }

  /** What the reviewer would hold at the target utilisation. */
  function TargetAssigned(r: Reviewer, target: real): real {
    r.capacity as real * target
  }

  /** `delta >= threshold`: over-utilised. */
  predicate Over(r: Reviewer, target: real, threshold: real) {
    r.capacity > 0 && Utilization(r) - target >= threshold
  }

  /** The `elif` branch `delta <= -threshold`: under-utilised. */
  predicate Under(r: Reviewer, target: real, threshold: real) {
    r.capacity > 0 && !(Utilization(r) - target >= threshold) && Utilization(r) - target <= -threshold
  }

  /** `int(round(assigned - target_assigned))` */
  function ToOffload(r: Reviewer, target: real): int {
    RoundHalfEven(r.assignedCount as real - TargetAssigned(r, target))
  }

  /** `int(round(target_assigned - assigned))` */
  function ToTake(r: Reviewer, target: real): int {
    RoundHalfEven(TargetAssigned(r, target) - r.assignedCount as real)
  }

  /** The `excess` dict once the classification loop has seen `rs`. */
  function Excess(rs: seq<Reviewer>, target: real, threshold: real): map<int, int> {
    if rs == [] then map[]
    else
      var m := Excess(rs[..|rs| - 1], target, threshold);
      var r := rs[|rs| - 1];
      if Over(r, target, threshold) && ToOffload(r, target) > 0 then m[r.id := ToOffload(r, target)] else m
  }

  /** The `deficit` dict once the classification loop has seen `rs`. */
  function Deficit(rs: seq<Reviewer>, target: real, threshold: real): map<int, int> {
    if rs == [] then map[]
    else
      var m := Deficit(rs[..|rs| - 1], target, threshold);
      var r := rs[|rs| - 1];
      if !Over(r, target, threshold) && Under(r, target, threshold) && ToTake(r, target) > 0
      then m[r.id := ToTake(r, target)] else m
  }

  /** The working loads `reviewer_state[id]["assigned"]` as first filled in. */
  function Loads(rs: seq<Reviewer>): map<int, int> {
    if rs == [] then map[] else Loads(rs[..|rs| - 1])[rs[|rs| - 1].id := rs[|rs| - 1].assignedCount]
  }

  /** `under_reviewers`: the reviewers holding a deficit quota, in the order
      they were classified. */
  function UnderReviewers(rs: seq<Reviewer>, deficit: map<int, int>): seq<Reviewer> {
    if rs == [] then []
    else UnderReviewers(rs[..|rs| - 1], deficit) + (if rs[|rs| - 1].id in deficit then [rs[|rs| - 1]] else [])
  }

  /** One candidate move: the score of the receiving reviewer for the
      assignment's application. */
  datatype Candidate = Candidate(score: real, assignment: AssignmentDetail, reviewer: Reviewer)

  function ApplicationOf(a: AssignmentDetail): Application {
    Application(a.applicationId, a.applicantName, a.program, a.tags)
  }

  /** The inner loop: the candidates pairing `a` with each receiving
      reviewer of `under` who scores above zero. */
  function CandidatesFor(a: AssignmentDetail, under: seq<Reviewer>): seq<Candidate> {
    if under == [] then []
    else
      var r := under[|under| - 1];
      var s := Score(r, ApplicationOf(a));
      CandidatesFor(a, under[..|under| - 1]) + (if s <= 0.0 then [] else [Candidate(s, a, r)])
  }

  /** The outer loop: candidates for every assignment held by a reviewer
      with an excess quota. */
  function Candidates(assignments: seq<AssignmentDetail>, excess: map<int, int>, under: seq<Reviewer>): seq<Candidate> {
    if assignments == [] then []
    else
      var a := assignments[|assignments| - 1];
      Candidates(assignments[..|assignments| - 1], excess, under)
        + (if a.reviewerId in excess then CandidatesFor(a, under) else [])
  }

  /** `candidates.sort(key=score, reverse=True)` */
  predicate CandidateBefore(a: Candidate, b: Candidate) {
    a.score > b.score
  }

  lemma CandidateBeforeIsStrictWeakOrder()
    ensures StrictWeakOrder(CandidateBefore)
  {
  }

  /** The plan recorded when candidate `c` is taken. */
  function PlanOf(c: Candidate): ReassignmentPlan {
    ReassignmentPlan(c.assignment.applicationId, c.assignment.reviewerId, c.assignment.reviewerName,
                     c.reviewer.id, c.reviewer.name, c.score)
  }

  /** Whether the consuming loop takes candidate `c`: the source still owes
      an offload, the destination still has intake and room. */
  predicate Accepts(c: Candidate, excess: map<int, int>, deficit: map<int, int>, loads: map<int, int>) {
    Get(excess, c.assignment.reviewerId) > 0 && Get(deficit, c.reviewer.id) > 0 && Get(loads, c.reviewer.id) < c.reviewer.capacity
  }

  /** The consuming loop without its early exit: every candidate in order,
      taken when the quotas and the destination's capacity allow. */
  function Consume(cands: seq<Candidate>, excess: map<int, int>, deficit: map<int, int>, loads: map<int, int>)
    : seq<ReassignmentPlan>
  {
    if cands == [] then []
    else
      var c := cands[0];
      var src, dst := c.assignment.reviewerId, c.reviewer.id;
      if !Accepts(c, excess, deficit, loads) then Consume(cands[1..], excess, deficit, loads)
      else
        [PlanOf(c)] + Consume(cands[1..], excess[src := excess[src] - 1], deficit[dst := deficit[dst] - 1],
                              loads[dst := Get(loads, dst) + 1])
  }

  function Target(rs: seq<Reviewer>): real
    requires TotalCapacity(rs) > 0
  {
    TotalAssigned(rs) as real / TotalCapacity(rs) as real
  }

  /** The plan `propose_reassignments` returns. */
  function Propose(rs: seq<Reviewer>, assignments: seq<AssignmentDetail>, threshold: real): seq<ReassignmentPlan> {
    if TotalCapacity(rs) <= 0 then []
    else
      var target := Target(rs);
      var excess, deficit := Excess(rs, target, threshold), Deficit(rs, target, threshold);
      if |excess| == 0 || |deficit| == 0 then []
      else
        var cands := SortBy(Candidates(assignments, excess, UnderReviewers(rs, deficit)), CandidateBefore);
        Consume(cands, excess, deficit, Loads(rs))
  }

  /** Once no source owes an offload, no further candidate is taken: the
      early `break` does not change the plan. */
  lemma {:induction false} ConsumeSpent(cands: seq<Candidate>, excess: map<int, int>, deficit: map<int, int>, loads: map<int, int>)
    requires forall k :: k in excess ==> excess[k] <= 0
    ensures Consume(cands, excess, deficit, loads) == []
  {
    if cands != [] {
      ConsumeSpent(cands[1..], excess, deficit, loads);
    }
  }

  /** Every plan is the plan of one of the candidates. */
  lemma {:induction false} ConsumeDrawsFromCandidates(
    cands: seq<Candidate>, excess: map<int, int>, deficit: map<int, int>, loads: map<int, int>)
    ensures forall p :: p in Consume(cands, excess, deficit, loads) ==>
              exists i :: 0 <= i < |cands| && p == PlanOf(cands[i])
  {
    if cands != [] {
      var c := cands[0];
      var src, dst := c.assignment.reviewerId, c.reviewer.id;
      var ex, de, ld := excess, deficit, loads;
      if Accepts(c, excess, deficit, loads) {
        ex, de, ld := excess[src := excess[src] - 1], deficit[dst := deficit[dst] - 1], loads[dst := Get(loads, dst) + 1];
      }
      ConsumeDrawsFromCandidates(cands[1..], ex, de, ld);
      forall p | p in Consume(cands[1..], ex, de, ld)
        ensures exists i :: 0 <= i < |cands| && p == PlanOf(cands[i])
      {
        var i :| 0 <= i < |cands[1..]| && p == PlanOf(cands[1..][i]);
        assert p == PlanOf(cands[i + 1]);
      }
    }
  }

  ghost predicate NonIncreasing(plans: seq<ReassignmentPlan>) {
    forall i, j :: 0 <= i < j < |plans| ==> plans[j].score <= plans[i].score
  }

  /** Taken in score order, the plans come out in score order. */
  lemma {:induction false} ConsumeNonIncreasing(
    cands: seq<Candidate>, excess: map<int, int>, deficit: map<int, int>, loads: map<int, int>)
    requires SortedBy(cands, CandidateBefore)
    ensures NonIncreasing(Consume(cands, excess, deficit, loads))
  {
    if cands != [] {
      var c := cands[0];
      var src, dst := c.assignment.reviewerId, c.reviewer.id;
      var ex, de, ld := excess, deficit, loads;
      if Accepts(c, excess, deficit, loads) {
        ex, de, ld := excess[src := excess[src] - 1], deficit[dst := deficit[dst] - 1], loads[dst := Get(loads, dst) + 1];
      }
      var rest := Consume(cands[1..], ex, de, ld);
      ConsumeNonIncreasing(cands[1..], ex, de, ld);
      ConsumeDrawsFromCandidates(cands[1..], ex, de, ld);
      forall j | 0 <= j < |rest| ensures rest[j].score <= c.score {
        assert rest[j] in rest;
        var i :| 0 <= i < |cands[1..]| && rest[j] == PlanOf(cands[1..][i]);
        assert !CandidateBefore(cands[i + 1], cands[0]);
      }
    }
  }

  /** Number of plans moving work away from reviewer `id`. */
  function CountFrom(plans: seq<ReassignmentPlan>, id: int): nat {
    if plans == [] then 0 else (if plans[0].fromReviewerId == id then 1 else 0) + CountFrom(plans[1..], id)
  }

  /** Number of plans moving work to reviewer `id`. */
  function CountTo(plans: seq<ReassignmentPlan>, id: int): nat {
    if plans == [] then 0 else (if plans[0].toReviewerId == id then 1 else 0) + CountTo(plans[1..], id)
  }

  function Pos(x: int): nat {
    if x > 0 then x else 0
  }

  /** No reviewer gives away more than its offload quota or takes more
      than its intake quota. */
  lemma {:induction false} ConsumeQuotas(
    cands: seq<Candidate>, excess: map<int, int>, deficit: map<int, int>, loads: map<int, int>, id: int)
    ensures CountFrom(Consume(cands, excess, deficit, loads), id) <= Pos(Get(excess, id))
    ensures CountTo(Consume(cands, excess, deficit, loads), id) <= Pos(Get(deficit, id))
  {
    if cands != [] {
      var c := cands[0];
      var src, dst := c.assignment.reviewerId, c.reviewer.id;
      if Accepts(c, excess, deficit, loads) {
        ConsumeQuotas(cands[1..], excess[src := excess[src] - 1], deficit[dst := deficit[dst] - 1],
                      loads[dst := Get(loads, dst) + 1], id);
      } else {
        ConsumeQuotas(cands[1..], excess, deficit, loads, id);
      }
    }
  }

  /** A reviewer who receives work ends at most at its capacity. */
  lemma {:induction false} ConsumeCapacity(
    cands: seq<Candidate>, excess: map<int, int>, deficit: map<int, int>, loads: map<int, int>, id: int, cap: int)
    requires forall i :: 0 <= i < |cands| && cands[i].reviewer.id == id ==> cands[i].reviewer.capacity == cap
    ensures var n := CountTo(Consume(cands, excess, deficit, loads), id);
            n > 0 ==> Get(loads, id) + n <= cap
  {
    if cands != [] {
      var c := cands[0];
      var src, dst := c.assignment.reviewerId, c.reviewer.id;
      if Accepts(c, excess, deficit, loads) {
        ConsumeCapacity(cands[1..], excess[src := excess[src] - 1], deficit[dst := deficit[dst] - 1],
                        loads[dst := Get(loads, dst) + 1], id, cap);
      } else {
        ConsumeCapacity(cands[1..], excess, deficit, loads, id, cap);
      }
    }
  }

  lemma {:induction false} ExcessEntry(rs: seq<Reviewer>, target: real, threshold: real, id: int)
    requires id in Excess(rs, target, threshold)
    ensures exists i :: 0 <= i < |rs| && rs[i].id == id && Over(rs[i], target, threshold)
              && Excess(rs, target, threshold)[id] == ToOffload(rs[i], target) > 0
  {
    var init := rs[..|rs| - 1];
    var r := rs[|rs| - 1];
    if !(r.id == id && Over(r, target, threshold) && ToOffload(r, target) > 0) {
      ExcessEntry(init, target, threshold, id);
      var i :| 0 <= i < |init| && init[i].id == id && Over(init[i], target, threshold)
                && Excess(init, target, threshold)[id] == ToOffload(init[i], target) > 0;
      assert rs[i] == init[i];
    }
  }

  lemma {:induction false} DeficitEntry(rs: seq<Reviewer>, target: real, threshold: real, id: int)
    requires id in Deficit(rs, target, threshold)
    ensures exists i :: 0 <= i < |rs| && rs[i].id == id && !Over(rs[i], target, threshold)
              && Under(rs[i], target, threshold) && Deficit(rs, target, threshold)[id] == ToTake(rs[i], target) > 0
  {
    var init := rs[..|rs| - 1];
    var r := rs[|rs| - 1];
    if !(r.id == id && !Over(r, target, threshold) && Under(r, target, threshold) && ToTake(r, target) > 0) {
      DeficitEntry(init, target, threshold, id);
      var i :| 0 <= i < |init| && init[i].id == id && !Over(init[i], target, threshold)
                && Under(init[i], target, threshold) && Deficit(init, target, threshold)[id] == ToTake(init[i], target) > 0;
      assert rs[i] == init[i];
    }
  }

  /** The classification loop gives reviewer `rs[k]` an offload quota
      exactly when it is over-utilised with a positive rounded surplus, an
      intake quota exactly when it is under-utilised with a positive rounded
      shortfall, and never both. */
  lemma {:induction false} Classification(rs: seq<Reviewer>, target: real, threshold: real, k: int)
    requires DistinctIds(rs)
    requires 0 <= k < |rs|
    ensures var excess := Excess(rs, target, threshold);
            && (rs[k].id in excess <==> Over(rs[k], target, threshold) && ToOffload(rs[k], target) > 0)
            && (rs[k].id in excess ==> excess[rs[k].id] == ToOffload(rs[k], target))
    ensures var deficit := Deficit(rs, target, threshold);
            && (rs[k].id in deficit <==>
                  !Over(rs[k], target, threshold) && Under(rs[k], target, threshold) && ToTake(rs[k], target) > 0)
            && (rs[k].id in deficit ==> deficit[rs[k].id] == ToTake(rs[k], target))
  {
    var init := rs[..|rs| - 1];
    var last := |rs| - 1;
    if k == last {
      if rs[k].id in Excess(init, target, threshold) {
        ExcessEntry(init, target, threshold, rs[k].id);
      }
      if rs[k].id in Deficit(init, target, threshold) {
        DeficitEntry(init, target, threshold, rs[k].id);
      }
    } else {
      assert init[k] == rs[k];
      Classification(init, target, threshold, k);
    }
  }

  lemma {:induction false} UnderReviewersMember(rs: seq<Reviewer>, deficit: map<int, int>, r: Reviewer)
    requires r in UnderReviewers(rs, deficit)
    ensures r in rs && r.id in deficit
  {
    var init := rs[..|rs| - 1];
    if r != rs[|rs| - 1] || rs[|rs| - 1].id !in deficit {
      UnderReviewersMember(init, deficit, r);
      assert r in init;
    }
  }

  /** Every candidate pairs an assignment held by a reviewer with an excess
      quota with a receiving reviewer, at a positive score for that
      reviewer. */
  lemma {:induction false} CandidatesShape(
    assignments: seq<AssignmentDetail>, excess: map<int, int>, under: seq<Reviewer>, c: Candidate)
    requires c in Candidates(assignments, excess, under)
    ensures c.assignment in assignments && c.assignment.reviewerId in excess && c.reviewer in under
    ensures c.score > 0.0 && c.score == Score(c.reviewer, ApplicationOf(c.assignment))
  {
    var init := assignments[..|assignments| - 1];
    var a := assignments[|assignments| - 1];
    if c in Candidates(init, excess, under) {
      CandidatesShape(init, excess, under, c);
      assert c.assignment in init;
    } else {
      CandidatesForShape(a, under, c);
    }
  }

  lemma {:induction false} CandidatesForShape(a: AssignmentDetail, under: seq<Reviewer>, c: Candidate)
    requires c in CandidatesFor(a, under)
    ensures c.assignment == a && c.reviewer in under
    ensures c.score > 0.0 && c.score == Score(c.reviewer, ApplicationOf(a))
  {
    var init := under[..|under| - 1];
    if c in CandidatesFor(a, init) {
      CandidatesForShape(a, init, c);
    }
  }

  lemma {:induction false} LoadsAt(rs: seq<Reviewer>, k: int)
    requires DistinctIds(rs)
    requires 0 <= k < |rs|
    ensures rs[k].id in Loads(rs) && Loads(rs)[rs[k].id] == rs[k].assignedCount
  {
    if k < |rs| - 1 {
      var init := rs[..|rs| - 1];
      assert init[k] == rs[k];
      LoadsAt(init, k);
    }
  }

  /** The offload quota the classification gives `r`, 0 when it gets none. */
  function OffloadQuota(rs: seq<Reviewer>, threshold: real, r: Reviewer): nat {
    if TotalCapacity(rs) > 0 && Over(r, Target(rs), threshold) && ToOffload(r, Target(rs)) > 0
    then ToOffload(r, Target(rs)) else 0
  }

  /** The intake quota the classification gives `r`, 0 when it gets none. */
  function IntakeQuota(rs: seq<Reviewer>, threshold: real, r: Reviewer): nat {
    if TotalCapacity(rs) > 0 && !Over(r, Target(rs), threshold) && Under(r, Target(rs), threshold)
       && ToTake(r, Target(rs)) > 0
    then ToTake(r, Target(rs)) else 0
  }

  /** Reviewer `k`'s quotas are the entries the classification put in the
      `excess` and `deficit` dicts. */
  lemma QuotasAreEntries(rs: seq<Reviewer>, threshold: real, k: int)
    requires DistinctIds(rs) && 0 <= k < |rs|
    requires TotalCapacity(rs) > 0
    ensures OffloadQuota(rs, threshold, rs[k]) == Pos(Get(Excess(rs, Target(rs), threshold), rs[k].id))
    ensures IntakeQuota(rs, threshold, rs[k]) == Pos(Get(Deficit(rs, Target(rs), threshold), rs[k].id))
  {
    Classification(rs, Target(rs), threshold, k);
  }

  /** Plans are in non-increasing score order and every score is positive. */
  lemma ProposeOrdered(rs: seq<Reviewer>, assignments: seq<AssignmentDetail>, threshold: real)
    ensures var plans := Propose(rs, assignments, threshold);
            NonIncreasing(plans) && forall p :: p in plans ==> p.score > 0.0
  {
    if TotalCapacity(rs) > 0 {
      var target := Target(rs);
      var excess, deficit := Excess(rs, target, threshold), Deficit(rs, target, threshold);
      if |excess| > 0 && |deficit| > 0 {
        var raw := Candidates(assignments, excess, UnderReviewers(rs, deficit));
        var cands := SortBy(raw, CandidateBefore);
        CandidateBeforeIsStrictWeakOrder();
        SortBySorted(raw, CandidateBefore);
        ConsumeNonIncreasing(cands, excess, deficit, Loads(rs));
        ConsumeDrawsFromCandidates(cands, excess, deficit, Loads(rs));
        forall p | p in Consume(cands, excess, deficit, Loads(rs)) ensures p.score > 0.0 {
          var i :| 0 <= i < |cands| && p == PlanOf(cands[i]);
          SortByMembers(raw, CandidateBefore, cands[i]);
          CandidatesShape(assignments, excess, UnderReviewers(rs, deficit), cands[i]);
        }
      }
    }
  }

  /** Every plan moves an active assignment of an over-utilised reviewer
      (one with an offload quota) to a different, under-utilised reviewer
      (one with an intake quota). */
  lemma ProposeMovesExcessToDeficit(rs: seq<Reviewer>, assignments: seq<AssignmentDetail>, threshold: real,
                                    p: ReassignmentPlan)
    requires DistinctIds(rs)
    requires p in Propose(rs, assignments, threshold)
    ensures exists a :: a in assignments && a.applicationId == p.applicationId && a.reviewerId == p.fromReviewerId
    ensures exists k :: 0 <= k < |rs| && rs[k].id == p.fromReviewerId && OffloadQuota(rs, threshold, rs[k]) > 0
    ensures exists k :: 0 <= k < |rs| && rs[k].id == p.toReviewerId && IntakeQuota(rs, threshold, rs[k]) > 0
    ensures p.fromReviewerId != p.toReviewerId
  {
    var target := Target(rs);
    var excess, deficit := Excess(rs, target, threshold), Deficit(rs, target, threshold);
    var under := UnderReviewers(rs, deficit);
    var raw := Candidates(assignments, excess, under);
    var cands := SortBy(raw, CandidateBefore);
    ConsumeDrawsFromCandidates(cands, excess, deficit, Loads(rs));
    var i :| 0 <= i < |cands| && p == PlanOf(cands[i]);
    var c := cands[i];
    SortByMembers(raw, CandidateBefore, c);
    CandidatesShape(assignments, excess, under, c);
    UnderReviewersMember(rs, deficit, c.reviewer);
    ExcessEntry(rs, target, threshold, p.fromReviewerId);
    var kf :| 0 <= kf < |rs| && rs[kf].id == p.fromReviewerId && Over(rs[kf], target, threshold)
                && excess[p.fromReviewerId] == ToOffload(rs[kf], target) > 0;
    DeficitEntry(rs, target, threshold, p.toReviewerId);
    var kt :| 0 <= kt < |rs| && rs[kt].id == p.toReviewerId && !Over(rs[kt], target, threshold)
                && Under(rs[kt], target, threshold) && deficit[p.toReviewerId] == ToTake(rs[kt], target) > 0;
    assert kf != kt;
  }

  /** No reviewer gives away more assignments than its offload quota or
      receives more than its intake quota, and a receiving reviewer ends at
      most at its capacity. */
  lemma ProposeRespectsQuotasAndCapacity(rs: seq<Reviewer>, assignments: seq<AssignmentDetail>, threshold: real, k: int)
    requires DistinctIds(rs) && 0 <= k < |rs|
    ensures var plans := Propose(rs, assignments, threshold);
            && CountFrom(plans, rs[k].id) <= OffloadQuota(rs, threshold, rs[k])
            && CountTo(plans, rs[k].id) <= IntakeQuota(rs, threshold, rs[k])
            && (CountTo(plans, rs[k].id) > 0 ==> rs[k].assignedCount + CountTo(plans, rs[k].id) <= rs[k].capacity)
  {
    if TotalCapacity(rs) > 0 {
      var target := Target(rs);
      var excess, deficit := Excess(rs, target, threshold), Deficit(rs, target, threshold);
      QuotasAreEntries(rs, threshold, k);
      if |excess| > 0 && |deficit| > 0 {
        var under := UnderReviewers(rs, deficit);
        var raw := Candidates(assignments, excess, under);
        var cands := SortBy(raw, CandidateBefore);
        ConsumeQuotas(cands, excess, deficit, Loads(rs), rs[k].id);
        forall i | 0 <= i < |cands| && cands[i].reviewer.id == rs[k].id
          ensures cands[i].reviewer.capacity == rs[k].capacity
        {
          SortByMembers(raw, CandidateBefore, cands[i]);
          CandidatesShape(assignments, excess, under, cands[i]);
          UnderReviewersMember(rs, deficit, cands[i].reviewer);
        }
        ConsumeCapacity(cands, excess, deficit, Loads(rs), rs[k].id, rs[k].capacity);
        LoadsAt(rs, k);
      }
    }
  }

  lemma {:induction false} ExcessEmpty(rs: seq<Reviewer>, target: real, threshold: real)
    requires forall k :: 0 <= k < |rs| ==> !(Over(rs[k], target, threshold) && ToOffload(rs[k], target) > 0)
    ensures Excess(rs, target, threshold) == map[]
  {
    if rs != [] {
      ExcessEmpty(rs[..|rs| - 1], target, threshold);
    }
  }

  lemma {:induction false} DeficitEmpty(rs: seq<Reviewer>, target: real, threshold: real)
    requires forall k :: 0 <= k < |rs| ==>
               !(!Over(rs[k], target, threshold) && Under(rs[k], target, threshold) && ToTake(rs[k], target) > 0)
    ensures Deficit(rs, target, threshold) == map[]
  {
    if rs != [] {
      DeficitEmpty(rs[..|rs| - 1], target, threshold);
    }
  }

  /** When no reviewer receives an offload quota, or none an intake quota,
      nothing is proposed. */
  lemma ProposeNoOpWhenNoQuota(rs: seq<Reviewer>, assignments: seq<AssignmentDetail>, threshold: real)
    requires (forall k :: 0 <= k < |rs| ==> OffloadQuota(rs, threshold, rs[k]) == 0)
          || (forall k :: 0 <= k < |rs| ==> IntakeQuota(rs, threshold, rs[k]) == 0)
    ensures Propose(rs, assignments, threshold) == []
  {
    if TotalCapacity(rs) > 0 {
      var target := Target(rs);
      if forall k :: 0 <= k < |rs| ==> OffloadQuota(rs, threshold, rs[k]) == 0 {
        ExcessEmpty(rs, target, threshold);
      } else {
        DeficitEmpty(rs, target, threshold);
      }
    }
  }

  /** `propose_reassignments`: classify reviewers against the target
      utilisation, score every candidate move, and take the best moves
      first under the quota and capacity guards. */
  method ProposeReassignments(reviewers: seq<Reviewer>, assignments: seq<AssignmentDetail>, threshold: real)
    returns (plans: seq<ReassignmentPlan>)
    requires DistinctIds(reviewers)
    ensures plans == Propose(reviewers, assignments, threshold)
    ensures TotalCapacity(reviewers) <= 0 ==> plans == []
    ensures NonIncreasing(plans) && forall p :: p in plans ==> p.score > 0.0
    ensures forall p :: p in plans ==> p.fromReviewerId != p.toReviewerId
    ensures forall k :: 0 <= k < |reviewers| ==>
              && CountFrom(plans, reviewers[k].id) <= OffloadQuota(reviewers, threshold, reviewers[k])
              && CountTo(plans, reviewers[k].id) <= IntakeQuota(reviewers, threshold, reviewers[k])
              && (CountTo(plans, reviewers[k].id) > 0 ==>
                    reviewers[k].assignedCount + CountTo(plans, reviewers[k].id) <= reviewers[k].capacity)
  {
    var totalCapacity := TotalCapacity(reviewers);
    var totalAssigned := TotalAssigned(reviewers);
    if totalCapacity <= 0 {
      return [];
    }
    var target := totalAssigned as real / totalCapacity as real;
    var state := InitialLoads(reviewers);
    var excess, deficit := Classify(reviewers, target, threshold);
    if |excess| == 0 || |deficit| == 0 {
      plans := [];
    } else {
      var under := UnderReviewers(reviewers, deficit);
      var candidates := CollectCandidates(reviewers, assignments, excess, deficit, under, state);
      candidates := SortBy(candidates, CandidateBefore);
      plans := ConsumeCandidates(candidates, excess, deficit, state);
    }

    ProposeOrdered(reviewers, assignments, threshold);
    forall p | p in plans ensures p.fromReviewerId != p.toReviewerId {
      ProposeMovesExcessToDeficit(reviewers, assignments, threshold, p);
    }
    forall k | 0 <= k < |reviewers|
      ensures && CountFrom(plans, reviewers[k].id) <= OffloadQuota(reviewers, threshold, reviewers[k])
              && CountTo(plans, reviewers[k].id) <= IntakeQuota(reviewers, threshold, reviewers[k])
              && (CountTo(plans, reviewers[k].id) > 0 ==>
                    reviewers[k].assignedCount + CountTo(plans, reviewers[k].id) <= reviewers[k].capacity)
    {
      ProposeRespectsQuotasAndCapacity(reviewers, assignments, threshold, k);
    }
  }

  /** The `reviewer_state` loop: every reviewer's working load starts at
      its snapshot count. */
  method InitialLoads(reviewers: seq<Reviewer>) returns (state: map<int, int>)
    ensures state == Loads(reviewers)
  {
    state := map[];
    for i := 0 to |reviewers|
      invariant state == Loads(reviewers[..i])
    {
      assert reviewers[..i + 1][..i] == reviewers[..i];
      state := state[reviewers[i].id := reviewers[i].assignedCount];
    }
    assert reviewers[..|reviewers|] == reviewers;
  }

  /** The classification loop filling the `excess` and `deficit` dicts. */
  method Classify(reviewers: seq<Reviewer>, target: real, threshold: real)
    returns (excess: map<int, int>, deficit: map<int, int>)
    ensures excess == Excess(reviewers, target, threshold)
    ensures deficit == Deficit(reviewers, target, threshold)
  {
    excess, deficit := map[], map[];
    for i := 0 to |reviewers|
      invariant excess == Excess(reviewers[..i], target, threshold)
      invariant deficit == Deficit(reviewers[..i], target, threshold)
    {
      var reviewer := reviewers[i];
      assert reviewers[..i + 1][..i] == reviewers[..i];
      ghost var prefix := reviewers[..i + 1];
      assert prefix[|prefix| - 1] == reviewer && prefix[..|prefix| - 1] == reviewers[..i];
      if reviewer.capacity <= 0 {
        continue;
      }
      var utilization := reviewer.assignedCount as real / reviewer.capacity as real;
      var delta := utilization - target;
      var targetAssigned := reviewer.capacity as real * target;
      if delta >= threshold {
        var toOffload := RoundHalfEven(reviewer.assignedCount as real - targetAssigned);
        assert TargetAssigned(reviewer, target) == targetAssigned;
        assert toOffload == ToOffload(reviewer, target);
        if toOffload > 0 {
          excess := excess[reviewer.id := toOffload];
        }
      } else if delta <= -threshold {
        var toTake := RoundHalfEven(targetAssigned - reviewer.assignedCount as real);
        assert TargetAssigned(reviewer, target) == targetAssigned;
        if toTake > 0 {
          deficit := deficit[reviewer.id := toTake];
        }
      }
    }
    assert reviewers[..|reviewers|] == reviewers;
  }

  /** The candidate loops: each assignment held by a reviewer with an
      excess quota, against each receiving reviewer at its working load. */
  method CollectCandidates(reviewers: seq<Reviewer>, assignments: seq<AssignmentDetail>,
                           excess: map<int, int>, deficit: map<int, int>, under: seq<Reviewer>, state: map<int, int>)
    returns (candidates: seq<Candidate>)
    requires DistinctIds(reviewers)
    requires under == UnderReviewers(reviewers, deficit)
    requires state == Loads(reviewers)
    ensures candidates == Candidates(assignments, excess, under)
  {
    candidates := [];
    for i := 0 to |assignments|
      invariant candidates == Candidates(assignments[..i], excess, under)
    {
      var assignment := assignments[i];
      assert assignments[..i + 1][..i] == assignments[..i];
      if assignment.reviewerId !in excess {
        continue;
      }
      var application := Application(assignment.applicationId, assignment.applicantName, assignment.program, assignment.tags);
      for j := 0 to |under|
        invariant candidates == Candidates(assignments[..i], excess, under) + CandidatesFor(assignment, under[..j])
      {
        var reviewer := under[j];
        assert under[..j + 1][..j] == under[..j];
        UnderReviewersMember(reviewers, deficit, reviewer);
        var k :| 0 <= k < |reviewers| && reviewers[k] == reviewer;
        LoadsAt(reviewers, k);
        var temp := reviewer.(assignedCount := state[reviewer.id]);
        var score := Score(temp, application);
        if score <= 0.0 {
          continue;
        }
        candidates := candidates + [Candidate(score, assignment, reviewer)];
      }
      assert under[..|under|] == under;
    }
    assert assignments[..|assignments|] == assignments;
  }

  /** The consuming loop, which stops as soon as every offload quota is
      spent; the plan is the one of the loop without that exit. */
  method ConsumeCandidates(candidates: seq<Candidate>, excess0: map<int, int>, deficit0: map<int, int>,
                           state0: map<int, int>)
    returns (plans: seq<ReassignmentPlan>)
    ensures plans == Consume(candidates, excess0, deficit0, state0)
  {
    var excess, deficit, state := excess0, deficit0, state0;
    plans := [];
    var i := 0;
    while i < |candidates|
      invariant 0 <= i <= |candidates|
      invariant plans + Consume(candidates[i..], excess, deficit, state) == Consume(candidates, excess0, deficit0, state0)
    {
      var Candidate(score, assignment, reviewer) := candidates[i];
      assert candidates[i..] == [candidates[i]] + candidates[i + 1..];
      if Get(excess, assignment.reviewerId) <= 0 || Get(deficit, reviewer.id) <= 0 {
        i := i + 1;
        continue;
      }
      if Get(state, reviewer.id) >= reviewer.capacity {
        i := i + 1;
        continue;
      }
      state := state[reviewer.id := Get(state, reviewer.id) + 1];
      excess := excess[assignment.reviewerId := excess[assignment.reviewerId] - 1];
      deficit := deficit[reviewer.id := deficit[reviewer.id] - 1];
      plans := plans + [ReassignmentPlan(assignment.applicationId, assignment.reviewerId, assignment.reviewerName,
                                         reviewer.id, reviewer.name, score)];
      i := i + 1;
      if forall k | k in excess :: excess[k] <= 0 {
        ConsumeSpent(candidates[i..], excess, deficit, state);
        break;
      }
    }
    assert candidates[|candidates|..] == [];
  }

  const ReviewerA := Reviewer(1, "A", 2, ["stem"], 2)
  const ReviewerB := Reviewer(2, "B", 2, ["arts"], 0)
  const ReviewerC := Reviewer(3, "C", 2, ["stem"], 0)
  const HeldByA := AssignmentDetail(101, 1, "A", "Applicant One", "Program X", ["stem"])

  lemma ScenarioClassification()
    ensures var rs := [ReviewerA, ReviewerB, ReviewerC];
            && TotalCapacity(rs) == 6 && Target(rs) == 1.0 / 3.0
            && Excess(rs, 1.0 / 3.0, 0.1) == map[1 := 1]
            && Deficit(rs, 1.0 / 3.0, 0.1) == map[2 := 1, 3 := 1]
            && UnderReviewers(rs, map[2 := 1, 3 := 1]) == [ReviewerB, ReviewerC]
            && Loads(rs) == map[1 := 2, 2 := 0, 3 := 0]
  {
    var a, b, c := ReviewerA, ReviewerB, ReviewerC;
    var rs := [a, b, c];
    assert rs[..2] == [a, b] && [a, b][..1] == [a] && [a][..0] == [];
    assert TotalCapacity([a]) == 2 && TotalCapacity([a, b]) == 4 && TotalCapacity(rs) == 6;
    assert TotalAssigned([a]) == 2 && TotalAssigned([a, b]) == 2 && TotalAssigned(rs) == 2;
    var target := 1.0 / 3.0;
    RoundHalfEvenUnique(2.0 - 2.0 / 3.0, 1);
    RoundHalfEvenUnique(2.0 / 3.0, 1);
    assert ToOffload(a, target) == 1 && ToTake(b, target) == 1 && ToTake(c, target) == 1;
    assert Over(a, target, 0.1) && !Over(b, target, 0.1) && !Over(c, target, 0.1);
    assert Under(b, target, 0.1) && Under(c, target, 0.1);
    assert Excess([a], target, 0.1) == map[1 := 1];
    assert Excess([a, b], target, 0.1) == map[1 := 1];
    assert Deficit([a], target, 0.1) == map[];
    assert Deficit([a, b], target, 0.1) == map[2 := 1];
    var deficit := map[2 := 1, 3 := 1];
    assert UnderReviewers([a], deficit) == [];
    assert UnderReviewers([a, b], deficit) == [b];
    assert Loads([a]) == map[1 := 2];
    assert Loads([a, b]) == map[1 := 2, 2 := 0];
  }

  /** An idle reviewer scores 0.65 on availability alone and 1.0 with the
      application's only tag. */
  lemma ScenarioScores()
    ensures Score(ReviewerB, ApplicationOf(HeldByA)) == 0.65
    ensures Score(ReviewerC, ApplicationOf(HeldByA)) == 1.0
  {
    var app := ApplicationOf(HeldByA);
    assert SetOf(ReviewerB.tags) * SetOf(app.tags) == {};
    assert SetOf(ReviewerC.tags) * SetOf(app.tags) == {"stem"};
    Round4Exact(6500);
    Round4Exact(10000);
  }

  lemma ScenarioCandidatesFor()
    ensures CandidatesFor(HeldByA, [ReviewerB, ReviewerC])
         == [Candidate(0.65, HeldByA, ReviewerB), Candidate(1.0, HeldByA, ReviewerC)]
  {
    ScenarioScores();
    var b, c := ReviewerB, ReviewerC;
    assert [b, c][..1] == [b] && [b][..0] == [];
    assert CandidatesFor(HeldByA, [b]) == [Candidate(0.65, HeldByA, b)];
  }

  lemma ScenarioCandidates()
    ensures var cb, cc := Candidate(0.65, HeldByA, ReviewerB), Candidate(1.0, HeldByA, ReviewerC);
            SortBy(Candidates([HeldByA], map[1 := 1], [ReviewerB, ReviewerC]), CandidateBefore) == [cc, cb]
  {
    ScenarioCandidatesFor();
    var cb, cc := Candidate(0.65, HeldByA, ReviewerB), Candidate(1.0, HeldByA, ReviewerC);
    assert [HeldByA][..0] == [];
    assert Candidates([HeldByA], map[1 := 1], [ReviewerB, ReviewerC]) == [cb, cc];
    assert [cb, cc][1..] == [cc];
    assert SortBy([cc], CandidateBefore) == [cc];
    assert CandidateBefore(cc, cb);
    assert Insert(cb, [cc], CandidateBefore) == [cc] + Insert(cb, [], CandidateBefore);
  }

  /** Reviewers A (capacity 2, stem, 2 assigned), B (capacity 2, arts, idle)
      and C (capacity 2, stem, idle); A holds application 101 tagged stem.
      With threshold 0.1 the only move is 101 from A to C, whose tag
      matches. */
  lemma ScenarioMovesToTagMatch()
    ensures Propose([ReviewerA, ReviewerB, ReviewerC], [HeldByA], 0.1)
         == [ReassignmentPlan(101, 1, "A", 3, "C", 1.0)]
  {
    ScenarioClassification();
    ScenarioCandidates();
    ScenarioConsume();
  }

  lemma ScenarioConsume()
    ensures Consume([Candidate(1.0, HeldByA, ReviewerC), Candidate(0.65, HeldByA, ReviewerB)],
                    map[1 := 1], map[2 := 1, 3 := 1], map[1 := 2, 2 := 0, 3 := 0])
         == [ReassignmentPlan(101, 1, "A", 3, "C", 1.0)]
  {
    var cb, cc := Candidate(0.65, HeldByA, ReviewerB), Candidate(1.0, HeldByA, ReviewerC);
    var excess, deficit := map[1 := 1], map[2 := 1, 3 := 1];
    var loads := map[1 := 2, 2 := 0, 3 := 0];
    assert Accepts(cc, excess, deficit, loads);
    assert [cc, cb][1..] == [cb];
    var excess' := excess[1 := 0];
    assert !Accepts(cb, excess', deficit[3 := 0], loads[3 := 1]);
    assert Consume([cb], excess', deficit[3 := 0], loads[3 := 1]) == [];
  }

  /** Two reviewers at the same utilisation: nothing moves. */
  lemma ScenarioBalancedIsEmpty()
    ensures var rs := [Reviewer(1, "A", 2, ["stem"], 1), Reviewer(2, "B", 2, ["arts"], 1)];
            Propose(rs, [], 0.2) == []
  {
    var a, b := Reviewer(1, "A", 2, ["stem"], 1), Reviewer(2, "B", 2, ["arts"], 1);
    var rs := [a, b];
    assert rs[..1] == [a] && [a][..0] == [];
    assert TotalCapacity([a]) == 2 && TotalCapacity(rs) == 4;
    assert TotalAssigned([a]) == 1 && TotalAssigned(rs) == 2;
    assert Target(rs) == 0.5;
    assert !Over(a, 0.5, 0.2) && !Over(b, 0.5, 0.2);
    assert Excess([a], 0.5, 0.2) == map[];
    assert Excess(rs, Target(rs), 0.2) == map[];
  }
}
