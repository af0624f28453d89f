/** `build_tag_capacity_report`: for every tag, the applications waiting
    on it (the demand) against the reviewers listing it, their summed
    capacity and current load (the supply), most urgent tag first. */
module TagCapacityReport {
  import opened Wrappers
  import opened Sorting
  import opened Grouping

  /** A reviewer as the report reads it; `id` is the key it is counted
      under in the set of reviewers of a tag. */
  datatype TagReviewer = TagReviewer(id: int, tags: seq<string>, capacity: int, assignedCount: int)

  /** One line of the report; `coverageRatio` is None when nothing waits
      on the tag. */
  datatype TagCapacity = TagCapacity(
    tag: string, queueCount: int, reviewerCount: int,
    capacity: int, assignedCount: int, remaining: int,
    coverageRatio: Option<real>)

  /** The tag an application without tags is counted under. */
  const Untagged: string := "untagged"

  // ---------------------------------------------------------------------
  // Demand

  /** The tag of every increment of `demand_counts`, in order: an
      application's tags, or `Untagged` for an application without tags
      when `includeUntagged` is set. */
  function DemandTags(applications: seq<seq<string>>, includeUntagged: bool): seq<string> {
    if applications == [] then []
    else
      var tags := applications[|applications| - 1];
      DemandTags(applications[..|applications| - 1], includeUntagged)
        + (if tags != [] then tags else if includeUntagged then [Untagged] else [])
  }

  /** The applications that have no tags. */
  function UntaggedCount(applications: seq<seq<string>>): nat {
    if applications == [] then 0
    else UntaggedCount(applications[..|applications| - 1]) + (if applications[|applications| - 1] == [] then 1 else 0)
  }

  /** Counting untagged applications adds to the count of `Untagged` and
      to nothing else. */
  lemma {:induction false} UntaggedDemand(applications: seq<seq<string>>, tag: string)
    ensures Occurrences(DemandTags(applications, true), tag)
            == Occurrences(DemandTags(applications, false), tag) + (if tag == Untagged then UntaggedCount(applications) else 0)
  {
    if applications != [] {
      UntaggedDemand(applications[..|applications| - 1], tag);
    }
  }

  /** Every tag of every application is counted once, and every untagged
      application once when they are included. */
  lemma {:induction false} DemandSize(applications: seq<seq<string>>, includeUntagged: bool)
    ensures |DemandTags(applications, includeUntagged)|
            == TagMentions(applications) + (if includeUntagged then UntaggedCount(applications) else 0)
  {
    if applications != [] {
      DemandSize(applications[..|applications| - 1], includeUntagged);
    }
  }

  /** The number of tags listed across the applications. */
  function TagMentions(applications: seq<seq<string>>): nat {
    if applications == [] then 0
    else TagMentions(applications[..|applications| - 1]) + |applications[|applications| - 1]|
  }

  // ---------------------------------------------------------------------
  // Supply

  /** A reviewer listing a tag; a reviewer listing a tag twice adds its
      capacity and load to the tag twice. */
  datatype Listing = Listing(key: int, tag: string, capacity: int, assignedCount: int)

  /** The listings of `reviewer` for `tags`, in order. */
  function ListingsOf(reviewer: TagReviewer, tags: seq<string>): seq<Listing> {
    if tags == [] then []
    else ListingsOf(reviewer, tags[..|tags| - 1])
         + [Listing(reviewer.id, tags[|tags| - 1], reviewer.capacity, reviewer.assignedCount)]
  }

  /** Every listing, reviewer by reviewer, in the order the loop visits
      them. */
  function Listings(reviewers: seq<TagReviewer>): seq<Listing> {
    if reviewers == [] then []
    else
      var last := reviewers[|reviewers| - 1];
      Listings(reviewers[..|reviewers| - 1]) + ListingsOf(last, last.tags)
  }

  function ListedTags(ls: seq<Listing>): seq<string> {
    if ls == [] then [] else ListedTags(ls[..|ls| - 1]) + [ls[|ls| - 1].tag]
  }

  /** One entry of `reviewer_state`. */
  datatype State = State(reviewers: set<int>, capacity: int, assignedCount: int)

  /** The entry a tag starts from, and the one `get` falls back to. */
  const Empty: State := State({}, 0, 0)

  /** The entry after one more listing. */
  function Add(s: State, l: Listing): State {
    State(s.reviewers + {l.key}, s.capacity + l.capacity, s.assignedCount + l.assignedCount)
  }

  /** A tag's entry after the listings `ls`. */
  function StateFor(ls: seq<Listing>, tag: string): State {
    if ls == [] then Empty
    else
      var s := StateFor(ls[..|ls| - 1], tag);
      if ls[|ls| - 1].tag == tag then Add(s, ls[|ls| - 1]) else s
  }

  /** A tag nobody lists has no reviewers, no capacity and no load; a
      listed tag has at least one reviewer. */
  lemma {:induction false} StateOfListed(ls: seq<Listing>, tag: string)
    ensures tag !in ListedTags(ls) ==> StateFor(ls, tag) == Empty
    ensures tag in ListedTags(ls) ==> StateFor(ls, tag).reviewers != {}
  {
    if ls != [] {
      var init := ls[..|ls| - 1];
      StateOfListed(init, tag);
      assert ListedTags(ls) == ListedTags(init) + [ls[|ls| - 1].tag];
      if ls[|ls| - 1].tag == tag {
        assert ls[|ls| - 1].key in StateFor(ls, tag).reviewers;
      }
    }
  }

  /** The reviewers counted for a tag are reviewers listing it. */
  lemma {:induction false} ReviewersListTag(reviewers: seq<TagReviewer>, tag: string, key: int)
    requires key in StateFor(Listings(reviewers), tag).reviewers
    ensures exists r :: r in reviewers && r.id == key && tag in r.tags
  {
    var init, last := reviewers[..|reviewers| - 1], reviewers[|reviewers| - 1];
    ListingsAppend(Listings(init), last, last.tags, tag);
    if key in StateFor(Listings(init), tag).reviewers {
      ReviewersListTag(init, tag, key);
      var r :| r in init && r.id == key && tag in r.tags;
      assert r in reviewers;
    } else {
      assert last in reviewers;
    }
  }

  /** Adding one reviewer's listings to a tag's entry. */
  lemma {:induction false} ListingsAppend(ls: seq<Listing>, reviewer: TagReviewer, tags: seq<string>, tag: string)
    ensures StateFor(ls + ListingsOf(reviewer, tags), tag).reviewers
            <= StateFor(ls, tag).reviewers + (if tag in tags then {reviewer.id} else {})
  {
    if tags != [] {
      var init := tags[..|tags| - 1];
      ListingsAppend(ls, reviewer, init, tag);
      var all := ls + ListingsOf(reviewer, tags);
      assert all[..|all| - 1] == ls + ListingsOf(reviewer, init);
      assert tag in init ==> tag in tags;
    } else {
      assert ls + ListingsOf(reviewer, tags) == ls;
    }
  }

  // ---------------------------------------------------------------------
  // The report

  /** `coverage_ratio`: None unless something waits on the tag. */
  function Coverage(demand: int, remaining: int): Option<real> {
    if demand > 0 then Some(remaining as real / demand as real) else None
  }

  /** The line for `tag` given every demand increment `demand` and every
      listing `ls`. */
  function Line(tag: string, demand: seq<string>, ls: seq<Listing>): TagCapacity {
    var s := StateFor(ls, tag);
    var queue := Occurrences(demand, tag);
    var remaining := if s.capacity - s.assignedCount > 0 then s.capacity - s.assignedCount else 0;
    TagCapacity(tag, queue, |s.reviewers|, s.capacity, s.assignedCount, remaining, Coverage(queue, remaining))
  }

  /** `set(demand_counts) | set(reviewer_state)` */
  function Tags(demand: seq<string>, ls: seq<Listing>): set<string> {
    (set t | t in demand) + (set t | t in ListedTags(ls))
  }

  /** A missing coverage ratio sorts as infinity. */
  predicate CoverageLess(a: Option<real>, b: Option<real>) {
    a.Some? && (b.None? || a.value < b.value)
  }

  /** The sort key `(queue_count == 0, coverage or inf, -queue_count, tag)`,
      compared component by component. */
  predicate LineBefore(a: TagCapacity, b: TagCapacity) {
    if (a.queueCount == 0) != (b.queueCount == 0) then b.queueCount == 0
    else if a.coverageRatio != b.coverageRatio then CoverageLess(a.coverageRatio, b.coverageRatio)
    else if a.queueCount != b.queueCount then a.queueCount > b.queueCount
    else StrLess(a.tag, b.tag)
  }

  lemma LineBeforeIsStrictWeakOrder()
    ensures StrictWeakOrder(LineBefore)
  {
    forall a, b | LineBefore(a, b)
      ensures !LineBefore(b, a)
    {
      StrLessTotal(a.tag, b.tag);
    }
    forall a, b, c | !LineBefore(a, b) && !LineBefore(b, c)
      ensures !LineBefore(a, c)
    {
      StrLessTotal(a.tag, b.tag);
      StrLessTotal(b.tag, c.tag);
      StrLessTotal(a.tag, c.tag);
      if StrLess(c.tag, b.tag) && StrLess(b.tag, a.tag) {
        StrLessTransitive(c.tag, b.tag, a.tag);
      }
    }
  }

  /** Lines for different tags are never tied. */
  lemma LineBeforeTotal(a: TagCapacity, b: TagCapacity)
    requires a.tag != b.tag
    ensures LineBefore(a, b) || LineBefore(b, a)
  {
    StrLessTotal(a.tag, b.tag);
  }

  /** What `build_tag_capacity_report` returns for the demand increments
      `demand` and the listings `ls`: exactly one line per tag, each as
      `Line` computes it, in strictly increasing sort-key order. */
  ghost predicate IsReport(report: seq<TagCapacity>, demand: seq<string>, ls: seq<Listing>) {
    && (forall l :: l in report <==> l.tag in Tags(demand, ls) && l == Line(l.tag, demand, ls))
    && StrictlySortedBy(report, LineBefore)
  }

  /** The report does not depend on the order the tags were visited in:
      only one list meets its description. */
  lemma ReportIsUnique(r1: seq<TagCapacity>, r2: seq<TagCapacity>, demand: seq<string>, ls: seq<Listing>)
    requires IsReport(r1, demand, ls) && IsReport(r2, demand, ls)
    ensures r1 == r2
  {
    LineBeforeIsStrictWeakOrder();
    StrictlySortedUnique(r1, r2, LineBefore);
  }

  // ---------------------------------------------------------------------
  // Properties of the report

  /** No tag has two lines. */
  lemma TagsDistinct(report: seq<TagCapacity>, demand: seq<string>, ls: seq<Listing>)
    requires IsReport(report, demand, ls)
    ensures forall i, j :: 0 <= i < j < |report| ==> report[i].tag != report[j].tag
  {
    LineBeforeIsStrictWeakOrder();
    forall i, j | 0 <= i < j < |report|
      ensures report[i].tag != report[j].tag
    {
      assert report[i] == Line(report[i].tag, demand, ls) by {
        assert report[i] in report;
      }
      assert report[j] == Line(report[j].tag, demand, ls) by {
        assert report[j] in report;
      }
      assert LineBefore(report[i], report[j]);
    }
  }

  /** Every line: `remaining` is `max(capacity - assigned, 0)`; the
      coverage ratio is missing exactly when nothing waits on the tag and
      is `remaining / queue_count` otherwise; a tag no reviewer lists has
      no capacity and no load. */
  lemma LineFacts(report: seq<TagCapacity>, demand: seq<string>, ls: seq<Listing>)
    requires IsReport(report, demand, ls)
    ensures forall l :: l in report ==>
              && l.remaining >= 0 && l.remaining >= l.capacity - l.assignedCount
              && (l.remaining == 0 || l.remaining == l.capacity - l.assignedCount)
              && l.queueCount >= 0
              && (l.coverageRatio.None? <==> l.queueCount == 0)
              && (l.queueCount > 0 ==> l.coverageRatio == Some(l.remaining as real / l.queueCount as real))
              && (l.reviewerCount == 0 <==> l.tag !in ListedTags(ls))
              && (l.reviewerCount == 0 ==> l.capacity == 0 && l.assignedCount == 0)
  {
    forall l | l in report
      ensures l.reviewerCount == 0 <==> l.tag !in ListedTags(ls)
      ensures l.reviewerCount == 0 ==> l.capacity == 0 && l.assignedCount == 0
    {
      StateOfListed(ls, l.tag);
    }
  }

  /** One line per tag of the demand or of the listings, and one only. */
  lemma ReportTags(report: seq<TagCapacity>, demand: seq<string>, ls: seq<Listing>)
    requires IsReport(report, demand, ls)
    ensures forall t :: (exists l :: l in report && l.tag == t) <==> t in demand || t in ListedTags(ls)
    ensures forall l :: l in report ==> l.queueCount == Occurrences(demand, l.tag)
  {
    forall t | t in demand || t in ListedTags(ls)
      ensures exists l :: l in report && l.tag == t
    {
      assert Line(t, demand, ls) in report;
    }
  }

  /** The tags that need reviewers come first, and a zero-demand tag
      never precedes one with demand; among tags with demand the coverage
      ratios do not decrease. */
  lemma ReportOrder(report: seq<TagCapacity>, demand: seq<string>, ls: seq<Listing>)
    requires IsReport(report, demand, ls)
    ensures forall i, j :: 0 <= i < j < |report| && report[i].queueCount == 0 ==> report[j].queueCount == 0
    ensures forall i, j :: 0 <= i < j < |report| && report[j].queueCount > 0 ==>
              report[i].coverageRatio.value <= report[j].coverageRatio.value
  {
    LineFacts(report, demand, ls);
    forall i, j | 0 <= i < j < |report|
      ensures report[i].queueCount == 0 ==> report[j].queueCount == 0
      ensures report[j].queueCount > 0 ==> report[i].coverageRatio.value <= report[j].coverageRatio.value
    {
      assert report[i] in report && report[j] in report;
      assert LineBefore(report[i], report[j]);
    }
  }

  function QueueOf(l: TagCapacity): int {
    l.queueCount
  }

  function TagOf(l: TagCapacity): string {
    l.tag
  }

  function TagsOf(report: seq<TagCapacity>): seq<string> {
    if report == [] then [] else TagsOf(report[..|report| - 1]) + [report[|report| - 1].tag]
  }

  lemma {:induction false} TagsOfAt(report: seq<TagCapacity>)
    ensures |TagsOf(report)| == |report|
    ensures forall i :: 0 <= i < |report| ==> TagsOf(report)[i] == report[i].tag
  {
    if report != [] {
      TagsOfAt(report[..|report| - 1]);
    }
  }

  lemma {:induction false} QueueSum(report: seq<TagCapacity>, demand: seq<string>)
    requires forall l :: l in report ==> l.queueCount == Occurrences(demand, l.tag)
    ensures SumBy(report, QueueOf) == SumCounts(TagsOf(report), demand)
  {
    if report != [] {
      var init := report[..|report| - 1];
      assert forall l :: l in init ==> l in report;
      QueueSum(init, demand);
      assert report[|report| - 1] in report;
    }
  }

  /** The queue counts add up to the number of demand increments: every
      application's tags, plus one per untagged application when those are
      included. */
  lemma QueueCountsSum(report: seq<TagCapacity>, applications: seq<seq<string>>, includeUntagged: bool,
                       ls: seq<Listing>)
    requires IsReport(report, DemandTags(applications, includeUntagged), ls)
    ensures SumBy(report, QueueOf) == TagMentions(applications) + (if includeUntagged then UntaggedCount(applications) else 0)
  {
    var demand := DemandTags(applications, includeUntagged);
    ReportTags(report, demand, ls);
    TagsDistinct(report, demand, ls);
    TagsOfAt(report);
    var tags := TagsOf(report);
    forall k | k in demand
      ensures k in tags
    {
      var l :| l in report && l.tag == k;
      var i :| 0 <= i < |report| && report[i] == l;
      assert tags[i] == k;
    }
    QueueSum(report, demand);
    SumCountsIsLength(tags, demand);
    DemandSize(applications, includeUntagged);
  }

  // ---------------------------------------------------------------------
  // The loops

  /** `demand_counts.get(tag, 0)` */
  function CountOf(counts: map<string, int>, tag: string): int {
    if tag in counts then counts[tag] else 0
  }

  /** `reviewer_state.get(tag, ...)` and `setdefault(tag, ...)` */
  function Lookup(state: map<string, State>, tag: string): State {
    if tag in state then state[tag] else Empty
  }

  /** `demand_counts` after the increments `demand`. */
  ghost predicate CountsMatch(demand: seq<string>, counts: map<string, int>) {
    forall t :: (t in counts <==> t in demand) && (t in counts ==> counts[t] == Occurrences(demand, t))
  }

  /** `reviewer_state` after the listings `ls`. */
  ghost predicate StateMatch(ls: seq<Listing>, state: map<string, State>) {
    forall t :: (t in state <==> t in ListedTags(ls)) && (t in state ==> state[t] == StateFor(ls, t))
  }

  lemma CountStep(demand: seq<string>, counts: map<string, int>, tag: string)
    requires CountsMatch(demand, counts)
    ensures CountsMatch(demand + [tag], counts[tag := CountOf(counts, tag) + 1])
  {
  }

  lemma StateStep(ls: seq<Listing>, state: map<string, State>, l: Listing)
    requires StateMatch(ls, state)
    ensures StateMatch(ls + [l], state[l.tag := Add(Lookup(state, l.tag), l)])
  {
    var next := ls + [l];
    assert next[..|next| - 1] == ls;
    assert ListedTags(next) == ListedTags(ls) + [l.tag];
    StateOfListed(ls, l.tag);
  }

  /** The `for tag in tags` loop: one increment per tag. */
  method CountTags(counts: map<string, int>, ghost before: seq<string>, tags: seq<string>)
    returns (counts': map<string, int>)
    requires CountsMatch(before, counts)
    ensures CountsMatch(before + tags, counts')
  {
    counts' := counts;
    for j := 0 to |tags|
      invariant CountsMatch(before + tags[..j], counts')
    {
      CountStep(before + tags[..j], counts', tags[j]);
      counts' := counts'[tags[j] := CountOf(counts', tags[j]) + 1];
      assert before + tags[..j + 1] == before + tags[..j] + [tags[j]];
    }
    assert tags[..|tags|] == tags;
  }

  /** The `for application in applications` loop. */
  method CountDemand(applications: seq<seq<string>>, includeUntagged: bool) returns (counts: map<string, int>)
    ensures CountsMatch(DemandTags(applications, includeUntagged), counts)
  {
    counts := map[];
    for i := 0 to |applications|
      invariant CountsMatch(DemandTags(applications[..i], includeUntagged), counts)
    {
      var tags := applications[i];
      ghost var before := DemandTags(applications[..i], includeUntagged);
      assert applications[..i + 1][..i] == applications[..i];
      if tags == [] {
        if includeUntagged {
          counts := CountTags(counts, before, [Untagged]);
        } else {
          assert before + [] == before;
        }
        continue;
      }
      counts := CountTags(counts, before, tags);
    }
    assert applications[..|applications|] == applications;
  }

  /** The `for reviewer in reviewers` loop. */
  method CollectState(reviewers: seq<TagReviewer>) returns (state: map<string, State>)
    ensures StateMatch(Listings(reviewers), state)
  {
    state := map[];
    for i := 0 to |reviewers|
      invariant StateMatch(Listings(reviewers[..i]), state)
    {
      var reviewer := reviewers[i];
      ghost var before := Listings(reviewers[..i]);
      assert before + ListingsOf(reviewer, reviewer.tags[..0]) == before;
      for j := 0 to |reviewer.tags|
        invariant StateMatch(before + ListingsOf(reviewer, reviewer.tags[..j]), state)
      {
        var tag := reviewer.tags[j];
        var listing := Listing(reviewer.id, tag, reviewer.capacity, reviewer.assignedCount);
        StateStep(before + ListingsOf(reviewer, reviewer.tags[..j]), state, listing);
        state := state[tag := Add(Lookup(state, tag), listing)];
        assert reviewer.tags[..j + 1][..j] == reviewer.tags[..j];
        assert before + ListingsOf(reviewer, reviewer.tags[..j + 1])
               == before + ListingsOf(reviewer, reviewer.tags[..j]) + [listing];
      }
      assert reviewer.tags[..|reviewer.tags|] == reviewer.tags;
      assert reviewers[..i + 1][..i] == reviewers[..i];
    }
    assert reviewers[..|reviewers|] == reviewers;
  }

  /** The line for one tag, from the two dicts. */
  method MakeLine(tag: string, counts: map<string, int>, state: map<string, State>,
                  ghost demand: seq<string>, ghost ls: seq<Listing>)
    returns (line: TagCapacity)
    requires CountsMatch(demand, counts) && StateMatch(ls, state)
    ensures line == Line(tag, demand, ls)
  {
    var queue := CountOf(counts, tag);
    var s := Lookup(state, tag);
    StateOfListed(ls, tag);
    var remaining := s.capacity - s.assignedCount;
    if remaining < 0 {
      remaining := 0;
    }
    var coverage := None;
    if queue > 0 {
      coverage := Some(remaining as real / queue as real);
    }
    line := TagCapacity(tag, queue, |s.reviewers|, s.capacity, s.assignedCount, remaining, coverage);
  }

  /** The `for tag in tags` loop, visiting the tags in an order the
      model leaves open. */
  method MakeLines(tags: set<string>, counts: map<string, int>, state: map<string, State>,
                   ghost demand: seq<string>, ghost ls: seq<Listing>)
    returns (lines: seq<TagCapacity>)
    requires CountsMatch(demand, counts) && StateMatch(ls, state)
    ensures forall l :: l in lines <==> l.tag in tags && l == Line(l.tag, demand, ls)
    ensures forall i, j :: 0 <= i < j < |lines| ==> lines[i].tag != lines[j].tag
  {
    lines := [];
    var rest := tags;
    ghost var done: set<string> := {};
    while rest != {}
      invariant rest + done == tags && rest !! done
      invariant forall l :: l in lines <==> l.tag in done && l == Line(l.tag, demand, ls)
      invariant forall i, j :: 0 <= i < j < |lines| ==> lines[i].tag != lines[j].tag
      decreases rest
    {
      var tag :| tag in rest;
      var line := MakeLine(tag, counts, state, demand, ls);
      assert forall l :: l in lines ==> l.tag != tag;
      lines := lines + [line];
      rest := rest - {tag};
      done := done + {tag};
    }
  }

  /** `build_tag_capacity_report` */
  method BuildTagCapacityReport(reviewers: seq<TagReviewer>, applications: seq<seq<string>>, includeUntagged: bool)
    returns (report: seq<TagCapacity>)
    ensures IsReport(report, DemandTags(applications, includeUntagged), Listings(reviewers))
  {
    var counts := CountDemand(applications, includeUntagged);
    var state := CollectState(reviewers);
    ghost var demand := DemandTags(applications, includeUntagged);
    ghost var ls := Listings(reviewers);
    var tags := counts.Keys + state.Keys;
    assert tags == Tags(demand, ls);

    var lines := MakeLines(tags, counts, state, demand, ls);
    report := SortBy(lines, LineBefore);
    Ordered(lines, report);
    forall l
      ensures l in report <==> l in lines
    {
      SortByMembers(lines, LineBefore, l);
    }
  }

  /** Sorting lines with distinct tags orders them strictly. */
  lemma Ordered(lines: seq<TagCapacity>, report: seq<TagCapacity>)
    requires forall i, j :: 0 <= i < j < |lines| ==> lines[i].tag != lines[j].tag
    requires report == SortBy(lines, LineBefore)
    ensures StrictlySortedBy(report, LineBefore)
  {
    LineBeforeIsStrictWeakOrder();
    SortBySorted(lines, LineBefore);
    TagsOfAt(lines);
    KeysStayDistinct(lines, TagsOf(lines), TagOf, report);
    forall i, j | 0 <= i < j < |report|
      ensures LineBefore(report[i], report[j])
    {
      assert TagOf(report[i]) != TagOf(report[j]);
      LineBeforeTotal(report[i], report[j]);
    }
  }
}
