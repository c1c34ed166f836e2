/** The planner: which issues are free to take, what they unlock, and where existing claims collide. */
module Planner {
  import opened Text
  import opened Json
  import opened RepoPaths
  import opened Sorting
  import opened Coordination

  /** `external` names the dependencies outside the repository. */
  datatype Issue = Issue(number: int, labels: seq<string>, blockers: seq<int>, children: seq<int>, external: seq<Json>)

  /** What an issue waits for beyond the snapshot: named dependencies, or else numbers of other issues. */
  datatype External = Named(dependencies: seq<Json>) | Numbered(blockers: seq<int>)

  datatype Holding = Holding(issue: int, paths: seq<string>, contracts: seq<string>)

  datatype PullRequest = PullRequest(number: int, issues: seq<int>)

  datatype Clash = Clash(left: int, right: int, paths: seq<string>, contracts: set<string>)

  datatype Plan = Plan(candidates: seq<int>, decisions: seq<int>, aggregations: seq<int>,
                       blocked: map<int, seq<int>>, owned: map<int, Ownership>, unlocks: map<int, seq<int>>,
                       conflicts: seq<Clash>, external: map<int, External>, unmapped: seq<int>)

  datatype Ownership = Ownership(localClaim: bool, openPulls: seq<int>)

  // ---------------------------------------------------------------- input

  predicate AreIssueNumbers(s: seq<int>) {
    (forall n :: n in s ==> n >= 1) && IsDistinct(s)
  }

  predicate ReadableIssue(i: Issue) {
    && i.number >= 1 && AreIssueNumbers(i.blockers) && AreIssueNumbers(i.children)
    && forall l :: l in i.labels ==> NonBlank(l)
  }

  ghost predicate ReadableSnapshot(issues: seq<Issue>) {
    && (forall i :: 0 <= i < |issues| ==> ReadableIssue(issues[i]))
    && (forall i, j :: 0 <= i < j < |issues| ==> issues[i].number != issues[j].number)
  }

  predicate ReadableContext(claims: seq<Holding>, prs: seq<PullRequest>) {
    && (forall c :: c in claims ==> c.issue >= 1)
    && (forall p :: p in prs ==> p.number >= 1 && AreIssueNumbers(p.issues))
  }

  // ---------------------------------------------------------------- one issue

  function Lower(s: string): string {
    seq(|s|, i requires 0 <= i < |s| => if 'A' <= s[i] <= 'Z' then s[i] + 32 as char else s[i])
  }

  predicate Contains(s: string, marker: string) {
    exists i :: 0 <= i <= |s| && marker <= s[i..]
  }

  const MARKERS := ["needs-decision", "source-scope", "needs-scope"]

  /** Every decision label contains a marker, so the markers decide. */
  predicate NeedsDecision(i: Issue) {
    exists l, m :: l in i.labels && m in MARKERS && Contains(Lower(l), m)
  }

  predicate Aggregates(i: Issue) {
    (exists l :: l in i.labels && Lower(l) == "epic") || i.children != []
  }

  predicate IsClaimed(claims: seq<Holding>, n: int) {
    exists c :: c in claims && c.issue == n
  }

  predicate HasPullRequest(prs: seq<PullRequest>, n: int) {
    exists p :: p in prs && n in p.issues
  }

  /** Nothing stands between the issue and a worker, as far as the snapshot shows. */
  predicate Free(i: Issue, claims: seq<Holding>, prs: seq<PullRequest>) {
    && !NeedsDecision(i) && !Aggregates(i)
    && i.blockers == [] && i.external == []
    && !IsClaimed(claims, i.number) && !HasPullRequest(prs, i.number)
  }

  function OpenPulls(prs: seq<PullRequest>, n: int): (numbers: seq<int>)
    ensures forall k :: k in numbers <==> exists p :: p in prs && n in p.issues && p.number == k
    ensures |numbers| <= |prs|
  {
    if prs == [] then []
    else
      assert prs == [prs[0]] + prs[1..];
      (if n in prs[0].issues then [prs[0].number] else []) + OpenPulls(prs[1..], n)
  }

  /** Issue d of the snapshot directly blocks issue n of the snapshot. */
  ghost predicate Blocks(issues: seq<Issue>, d: int, n: int) {
    exists i :: 0 <= i < |issues| && issues[i].number == n && d in issues[i].blockers
  }

  ghost predicate InSnapshot(issues: seq<Issue>, n: int) {
    exists i :: 0 <= i < |issues| && issues[i].number == n
  }

  /** The blockers that are not in the snapshot, in order. */
  function Outside(blockers: seq<int>, numbers: set<int>): (outside: seq<int>)
    ensures forall d :: d in outside <==> d in blockers && d !in numbers
    ensures |outside| <= |blockers|
  {
    if blockers == [] then []
    else
      assert blockers == [blockers[0]] + blockers[1..];
      (if blockers[0] in numbers then [] else [blockers[0]]) + Outside(blockers[1..], numbers)
  }

  predicate Waits(i: Issue, numbers: set<int>) {
    i.external != [] || exists d :: d in i.blockers && d !in numbers
  }

  /** Named dependencies replace the numbers of blockers outside the snapshot. */
  function WaitsFor(i: Issue, numbers: set<int>): External {
    if i.external != [] then Named(i.external) else Numbered(Outside(i.blockers, numbers))
  }

  /** The open pull requests that name no issue, in order. */
  function Unmapped(prs: seq<PullRequest>): (numbers: seq<int>)
    ensures forall n :: n in numbers <==> exists p :: p in prs && p.issues == [] && p.number == n
    ensures |numbers| <= |prs|
  {
    if prs == [] then []
    else
      assert prs == [prs[0]] + prs[1..];
      (if prs[0].issues == [] then [prs[0].number] else []) + Unmapped(prs[1..])
  }

  // ---------------------------------------------------------------- collisions

  function Overlapping(left: Holding, right: Holding): (paths: seq<string>)
    ensures forall p :: p in paths <==> p in left.paths && exists q :: q in right.paths && Overlap(p, q)
  {
    OverlappingIn(left.paths, right)
  }

  function OverlappingIn(paths: seq<string>, right: Holding): (found: seq<string>)
    ensures forall p :: p in found <==> p in paths && exists q :: q in right.paths && Overlap(p, q)
    ensures |found| <= |paths|
  {
    if paths == [] then []
    else
      assert paths == [paths[0]] + paths[1..];
      (if exists q :: q in right.paths && Overlap(paths[0], q) then [paths[0]] else [])
      + OverlappingIn(paths[1..], right)
  }

  function Describe(left: Holding, right: Holding): Clash {
    Clash(left.issue, right.issue, Overlapping(left, right),
          set c | c in left.contracts && c in right.contracts)
  }

  predicate Collide(left: Holding, right: Holding) {
    || left.issue == right.issue
    || (exists p, q :: p in left.paths && q in right.paths && Overlap(p, q))
    || (exists c :: c in left.contracts && c in right.contracts)
  }

  datatype Pair = Pair(left: nat, right: nat)

  /** The colliding pairs of claims before position (i, j), in the order in which they are compared. */
  ghost predicate Reports(claims: seq<Holding>, found: seq<Pair>, i: nat, j: nat) {
    && (forall k :: 0 <= k < |found| ==>
          && found[k].left < found[k].right < |claims|
          && Before(found[k], i, j) && Collide(claims[found[k].left], claims[found[k].right]))
    && (forall k, l :: 0 <= k < l < |found| ==> Before(found[k], found[l].left, found[l].right))
    && (forall a, b :: 0 <= a < b < |claims| && Before(Pair(a, b), i, j) && Collide(claims[a], claims[b]) ==>
          Pair(a, b) in found)
  }

  predicate Before(p: Pair, i: nat, j: nat) {
    p.left < i || (p.left == i && p.right < j)
  }

  /** The conflicts describe exactly the reported pairs, in their order. */
  ghost predicate Describes(claims: seq<Holding>, conflicts: seq<Clash>, found: seq<Pair>, i: nat, j: nat) {
    && Reports(claims, found, i, j) && |conflicts| == |found|
    && (forall k :: 0 <= k < |found| ==> conflicts[k] == Describe(claims[found[k].left], claims[found[k].right]))
  }

  /** Exactly one report for each colliding pair of claims. */
  method Conflicts(claims: seq<Holding>) returns (conflicts: seq<Clash>)
    ensures exists found :: Describes(claims, conflicts, found, |claims|, 0)
  {
    hide Collide, Describe, Overlap;
    conflicts := [];
    ghost var found: seq<Pair> := [];
    for i := 0 to |claims|
      invariant Describes(claims, conflicts, found, i, 0)
    {
      for j := i + 1 to |claims|
        invariant Describes(claims, conflicts, found, i, j)
      {
        var clash := Describe(claims[i], claims[j]);
        ClashIsCollision(claims[i], claims[j]);
        if clash.left == clash.right || clash.paths != [] || clash.contracts != {} {
          conflicts, found := conflicts + [clash], found + [Pair(i, j)];
        }
      }
    }
  }

  lemma ClashIsCollision(left: Holding, right: Holding)
    ensures var clash := Describe(left, right);
            Collide(left, right) <==> clash.left == clash.right || clash.paths != [] || clash.contracts != {}
  {
    var clash := Describe(left, right);
    if clash.paths != [] {
      assert clash.paths[0] in clash.paths;
    }
    if p, q :| p in left.paths && q in right.paths && Overlap(p, q) {
      assert p in clash.paths;
    }
    if c :| c in left.contracts && c in right.contracts {
      assert c in clash.contracts;
    }
  }

  function AsHolding(a: Snapshot): Holding {
    Holding(a.issue, a.scope.paths, a.scope.contracts)
  }

  /** The occupied claims of any valid record never collide, in whatever order they are listed. */
  lemma OccupiedNeverCollide(s: State, listed: seq<int>, i: nat, j: nat)
    requires ValidState(s) && Distinct(listed) && i < j < |listed|
    requires forall a :: 0 <= a < |listed| ==> Occupied(s.assignments, listed[a])
    ensures !Collide(AsHolding(s.assignments[listed[i]].now), AsHolding(s.assignments[listed[j]].now))
  {
    assert Compatible(s.assignments[listed[i]].now, s.assignments[listed[j]].now);
  }

  /** So no plan reports a conflict between the occupied claims of a valid record. */
  lemma OccupiedHaveNoConflicts(s: State, listed: seq<int>, claims: seq<Holding>, conflicts: seq<Clash>,
                                found: seq<Pair>)
    requires ValidState(s) && Distinct(listed) && |claims| == |listed|
    requires forall a :: 0 <= a < |listed| ==>
               Occupied(s.assignments, listed[a]) && claims[a] == AsHolding(s.assignments[listed[a]].now)
    requires Describes(claims, conflicts, found, |claims|, 0)
    ensures conflicts == []
  {
    hide ValidState, Collide;
    if conflicts != [] {
      var p := found[0];
      OccupiedNeverCollide(s, listed, p.left, p.right);
      assert false;
    }
  }

  // ---------------------------------------------------------------- the plan

  /** Record `number` under each of its blockers that belongs to the snapshot. */
  method Unlock(unlocks: map<int, seq<int>>, number: int, blockers: seq<int>) returns (r: map<int, seq<int>>)
    requires Distinct(blockers)
    ensures r.Keys == unlocks.Keys
    ensures forall d :: d in unlocks ==> r[d] == if d in blockers then unlocks[d] + [number] else unlocks[d]
  {
    r := unlocks;
    for i := 0 to |blockers|
      invariant r.Keys == unlocks.Keys
      invariant forall d :: d in unlocks ==> r[d] == if d in blockers[..i] then unlocks[d] + [number] else unlocks[d]
    {
      var d := blockers[i];
      assert blockers[..i + 1] == blockers[..i] + [d];
      if d in r {
        r := r[d := r[d] + [number]];
      }
    }
    assert blockers[..|blockers|] == blockers;
  }

  /** The snapshot numbers, or none if the snapshot cannot be read. */
  method Numbers(issues: seq<Issue>) returns (numbers: Option<set<int>>)
    ensures numbers.Some? <==> ReadableSnapshot(issues)
    ensures numbers.Some? ==> forall n :: n in numbers.value <==> InSnapshot(issues, n)
  {
    var seen: set<int> := {};
    for i := 0 to |issues|
      invariant forall j :: 0 <= j < i ==> ReadableIssue(issues[j])
      invariant forall j, k :: 0 <= j < k < i ==> issues[j].number != issues[k].number
      invariant forall n :: n in seen <==> exists j :: 0 <= j < i && issues[j].number == n
    {
      if !ReadableIssue(issues[i]) || issues[i].number in seen {
        return None;
      }
      seen := seen + {issues[i].number};
    }
    return Some(seen);
  }

  /** What one list of the plan selects issues by. */
  datatype Test = IsFree(claims: seq<Holding>, prs: seq<PullRequest>) | IsDecision | IsAggregate | BlockedBy(d: int)

  predicate Passes(t: Test, i: Issue) {
    match t
    case IsFree(claims, prs) => Free(i, claims, prs)
    case IsDecision => NeedsDecision(i)
    case IsAggregate => Aggregates(i)
    case BlockedBy(d) => d in i.blockers
  }

  ghost predicate Lists(issues: seq<Issue>, i: nat, numbers: seq<int>, t: Test)
    requires i <= |issues|
  {
    && Distinct(numbers)
    && forall n :: n in numbers <==> exists j :: 0 <= j < i && issues[j].number == n && Passes(t, issues[j])
  }

  lemma ListsNext(issues: seq<Issue>, i: nat, numbers: seq<int>, t: Test)
    requires ReadableSnapshot(issues) && i < |issues| && Lists(issues, i, numbers, t)
    ensures Lists(issues, i + 1, if Passes(t, issues[i]) then numbers + [issues[i].number] else numbers, t)
  {
    var last, next := issues[i], if Passes(t, issues[i]) then numbers + [issues[i].number] else numbers;
    assert last.number !in numbers by {
      assert forall j :: 0 <= j < i ==> issues[j].number != last.number;
    }
    forall n
      ensures n in next <==> exists j :: 0 <= j < i + 1 && issues[j].number == n && Passes(t, issues[j])
    {
      assert n in next <==> n in numbers || (Passes(t, last) && n == last.number);
      if n in numbers {
        var j :| 0 <= j < i && issues[j].number == n && Passes(t, issues[j]);
      }
    }
  }

  /** What each list of the plan holds, issue by issue. */
  ghost predicate Lays(issues: seq<Issue>, claims: seq<Holding>, prs: seq<PullRequest>, plan: Plan) {
    && (forall n :: n in plan.candidates <==>
          exists j :: 0 <= j < |issues| && issues[j].number == n && Free(issues[j], claims, prs))
    && (forall n :: n in plan.decisions <==>
          exists j :: 0 <= j < |issues| && issues[j].number == n && NeedsDecision(issues[j]))
    && (forall n :: n in plan.aggregations <==>
          exists j :: 0 <= j < |issues| && issues[j].number == n && Aggregates(issues[j]))
    && (forall n :: n in plan.owned <==> InSnapshot(issues, n) && (IsClaimed(claims, n) || HasPullRequest(prs, n)))
    && (forall n :: n in plan.owned ==> plan.owned[n] == Ownership(IsClaimed(claims, n), OpenPulls(prs, n)))
    && (forall n :: n in plan.blocked <==>
          exists j :: 0 <= j < |issues| && issues[j].number == n && issues[j].blockers != [])
    && (forall j :: 0 <= j < |issues| && issues[j].blockers != [] ==>
          issues[j].number in plan.blocked && plan.blocked[issues[j].number] == issues[j].blockers)
    && (forall d :: d in plan.unlocks <==> InSnapshot(issues, d) && exists n :: Blocks(issues, d, n))
    && (forall d, n :: d in plan.unlocks ==> (n in plan.unlocks[d] <==> Blocks(issues, d, n)))
    && plan.unmapped == Unmapped(prs)
  }

  /** Whatever issues wait for beyond the snapshot is listed under them. */
  ghost predicate ListsExternal(issues: seq<Issue>, external: map<int, External>) {
    && (forall n :: n in external <==>
          exists j :: 0 <= j < |issues| && issues[j].number == n && WaitsOutside(issues, issues[j]))
    && forall j :: 0 <= j < |issues| && WaitsOutside(issues, issues[j]) ==>
         && issues[j].number in external
         && match external[issues[j].number]
            case Named(dependencies) => dependencies == issues[j].external != []
            case Numbered(blockers) =>
              && issues[j].external == []
              && forall d :: d in blockers <==> d in issues[j].blockers && !InSnapshot(issues, d)
  }

  function Blocked(issues: seq<Issue>): (blocked: map<int, seq<int>>)
    requires ReadableSnapshot(issues)
    ensures forall n :: n in blocked <==>
              exists j :: 0 <= j < |issues| && issues[j].number == n && issues[j].blockers != []
    ensures forall j :: 0 <= j < |issues| && issues[j].blockers != [] ==>
              issues[j].number in blocked && blocked[issues[j].number] == issues[j].blockers
  {
    map j | 0 <= j < |issues| && issues[j].blockers != [] :: issues[j].number := issues[j].blockers
  }

  /** None is the ValueError of an unreadable snapshot, claim or pull request. */
  method CreatePlan(issues: seq<Issue>, claims: seq<Holding>, prs: seq<PullRequest>) returns (plan: Option<Plan>)
    ensures plan.Some? <==> ReadableSnapshot(issues) && ReadableContext(claims, prs)
    ensures plan.Some? ==> Lays(issues, claims, prs, plan.value) && ListsExternal(issues, plan.value.external)
    ensures plan.Some? ==> Increasing(plan.value.candidates) && Increasing(plan.value.decisions)
    ensures plan.Some? ==> Increasing(plan.value.aggregations)
    ensures plan.Some? ==> forall d :: d in plan.value.unlocks ==> Increasing(plan.value.unlocks[d])
    ensures plan.Some? ==> exists found :: Describes(claims, plan.value.conflicts, found, |claims|, 0)
    ensures plan.Some? ==> CandidatesAreLeft(issues, plan.value) && OwnedIsTaken(issues, claims, prs, plan.value)
    ensures plan.Some? ==> UnlocksInvertBlocked(issues, plan.value)
  {
    hide Free, NeedsDecision, Aggregates, Describes, Blocks, Unmapped, WaitsOutside, ReadableIssue, IsClaimed,
         HasPullRequest, Increasing, CandidatesAreLeft, OwnedIsTaken, UnlocksInvertBlocked, InSnapshot, Sorted,
         Blocked, OpenPulls, ReadableContext, ReadableSnapshot;
    var numbers := Numbers(issues);
    if numbers == None || !ReadableContext(claims, prs) {
      return None;
    }
    var candidates, decisions, aggregations := ListIssues(issues, claims, prs);
    var blocked := Blocked(issues);
    var owned := map n | n in numbers.value && (IsClaimed(claims, n) || HasPullRequest(prs, n))
      :: Ownership(IsClaimed(claims, n), OpenPulls(prs, n));
    var unlocks := Unlocks(issues, numbers.value);
    var conflicts := Conflicts(claims);
    var external := ExternalBlockers(issues, numbers.value);
    plan := Some(Plan(Sorted(candidates), Sorted(decisions), Sorted(aggregations), blocked, owned, unlocks, conflicts,
                      external, Unmapped(prs)));
    LeftAddsUp(issues, claims, prs, plan.value);
    OwnedAddsUp(issues, claims, prs, plan.value);
    UnlocksAddUp(issues, claims, prs, plan.value);
  }

  /** The candidates are the issues of the snapshot that no other list of the plan names and that depend on nothing
      external. */
  ghost predicate CandidatesAreLeft(issues: seq<Issue>, plan: Plan) {
    && (forall n :: n in plan.candidates ==> exists j :: 0 <= j < |issues| && issues[j].number == n)
    && forall j :: 0 <= j < |issues| ==>
         var n := issues[j].number;
         n in plan.candidates <==>
           && n !in plan.owned && n !in plan.blocked && n !in plan.decisions && n !in plan.aggregations
           && issues[j].external == []
  }

  /** Whoever holds an issue of the snapshot is named, and nothing that is held or under review is proposed. */
  ghost predicate OwnedIsTaken(issues: seq<Issue>, claims: seq<Holding>, prs: seq<PullRequest>, plan: Plan) {
    && (forall i :: 0 <= i < |claims| ==>
          && claims[i].issue !in plan.candidates
          && forall j :: 0 <= j < |issues| && issues[j].number == claims[i].issue ==>
               issues[j].number in plan.owned && plan.owned[issues[j].number].localClaim)
    && (forall p, n :: p in prs && n in p.issues ==>
          && n !in plan.candidates
          && forall j :: 0 <= j < |issues| && issues[j].number == n ==>
               n in plan.owned && p.number in plan.owned[n].openPulls)
    && forall n :: n in plan.owned ==>
         && (exists j :: 0 <= j < |issues| && issues[j].number == n)
         && (plan.owned[n].localClaim || plan.owned[n].openPulls != [])
         && (plan.owned[n].localClaim ==> exists c :: c in claims && c.issue == n)
         && forall k :: k in plan.owned[n].openPulls ==> exists p :: p in prs && n in p.issues && p.number == k
  }

  /** An issue is listed under each of its blockers that the snapshot has, and nothing else is listed. */
  ghost predicate UnlocksInvertBlocked(issues: seq<Issue>, plan: Plan) {
    && (forall d :: d in plan.unlocks ==> plan.unlocks[d] != [])
    && forall d, n ::
         (d in plan.unlocks && n in plan.unlocks[d]) <==>
           n in plan.blocked && d in plan.blocked[n] && exists j :: 0 <= j < |issues| && issues[j].number == d
  }

  lemma LeftAddsUp(issues: seq<Issue>, claims: seq<Holding>, prs: seq<PullRequest>, plan: Plan)
    requires ReadableSnapshot(issues) && Lays(issues, claims, prs, plan)
    ensures CandidatesAreLeft(issues, plan)
  {
    hide NeedsDecision, Aggregates, IsClaimed, HasPullRequest, Blocks, Unmapped, OpenPulls, ReadableIssue;
    forall j | 0 <= j < |issues|
      ensures var n := issues[j].number;
              n in plan.candidates <==>
                && n !in plan.owned && n !in plan.blocked && n !in plan.decisions && n !in plan.aggregations
                && issues[j].external == []
    {
      var n := issues[j].number;
      assert forall k :: 0 <= k < |issues| && issues[k].number == n ==> k == j;
      assert InSnapshot(issues, n);
    }
  }

  lemma OwnedAddsUp(issues: seq<Issue>, claims: seq<Holding>, prs: seq<PullRequest>, plan: Plan)
    requires Lays(issues, claims, prs, plan)
    ensures OwnedIsTaken(issues, claims, prs, plan)
  {
    hide NeedsDecision, Aggregates, Blocks, Unmapped, OpenPulls;
    forall n | n in plan.owned && !plan.owned[n].localClaim
      ensures plan.owned[n].openPulls != []
    {
      var p :| p in prs && n in p.issues;
      assert p.number in plan.owned[n].openPulls;
    }
  }

  lemma UnlocksAddUp(issues: seq<Issue>, claims: seq<Holding>, prs: seq<PullRequest>, plan: Plan)
    requires ReadableSnapshot(issues) && Lays(issues, claims, prs, plan)
    ensures UnlocksInvertBlocked(issues, plan)
  {
    hide Free, NeedsDecision, Aggregates, IsClaimed, HasPullRequest, Unmapped, OpenPulls, ReadableIssue;
    forall d, n
      ensures Blocks(issues, d, n) <==> n in plan.blocked && d in plan.blocked[n]
    {
      if n in plan.blocked && d in plan.blocked[n] {
        var j :| 0 <= j < |issues| && issues[j].number == n && issues[j].blockers != [];
        assert plan.blocked[n] == issues[j].blockers;
      }
    }
    forall d | d in plan.unlocks
      ensures plan.unlocks[d] != []
    {
      var n :| Blocks(issues, d, n);
      assert n in plan.unlocks[d];
    }
  }

  /** Issue i waits for something that the snapshot does not show. */
  ghost predicate WaitsOutside(issues: seq<Issue>, i: Issue) {
    i.external != [] || exists d :: d in i.blockers && !InSnapshot(issues, d)
  }

  method ExternalBlockers(issues: seq<Issue>, numbers: set<int>) returns (external: map<int, External>)
    requires ReadableSnapshot(issues)
    requires forall n :: n in numbers <==> InSnapshot(issues, n)
    ensures forall n :: n in external <==>
              exists j :: 0 <= j < |issues| && issues[j].number == n && WaitsOutside(issues, issues[j])
    ensures forall j :: 0 <= j < |issues| && WaitsOutside(issues, issues[j]) ==>
              issues[j].number in external && external[issues[j].number] == WaitsFor(issues[j], numbers)
  {
    hide ReadableIssue, InSnapshot, WaitsFor;
    external := map[];
    for i := 0 to |issues|
      invariant forall n :: n in external <==>
                  exists j :: 0 <= j < i && issues[j].number == n && WaitsOutside(issues, issues[j])
      invariant forall j :: 0 <= j < i && WaitsOutside(issues, issues[j]) ==>
                  issues[j].number in external && external[issues[j].number] == WaitsFor(issues[j], numbers)
    {
      if Waits(issues[i], numbers) {
        external := external[issues[i].number := WaitsFor(issues[i], numbers)];
      }
    }
  }

  method ListIssues(issues: seq<Issue>, claims: seq<Holding>, prs: seq<PullRequest>)
    returns (candidates: seq<int>, decisions: seq<int>, aggregations: seq<int>)
    requires ReadableSnapshot(issues)
    ensures Lists(issues, |issues|, candidates, IsFree(claims, prs))
    ensures Lists(issues, |issues|, decisions, IsDecision)
    ensures Lists(issues, |issues|, aggregations, IsAggregate)
  {
    candidates, decisions, aggregations := [], [], [];
    for i := 0 to |issues|
      invariant Lists(issues, i, candidates, IsFree(claims, prs))
      invariant Lists(issues, i, decisions, IsDecision)
      invariant Lists(issues, i, aggregations, IsAggregate)
    {
      ListsNext(issues, i, candidates, IsFree(claims, prs));
      ListsNext(issues, i, decisions, IsDecision);
      ListsNext(issues, i, aggregations, IsAggregate);
      var issue := issues[i];
      if NeedsDecision(issue) {
        decisions := decisions + [issue.number];
      }
      if Aggregates(issue) {
        aggregations := aggregations + [issue.number];
      }
      if Free(issue, claims, prs) {
        candidates := candidates + [issue.number];
      }
    }
  }

  /** The issues that each issue of the snapshot directly unlocks: the blockers relation, inverted. */
  method Unlocks(issues: seq<Issue>, numbers: set<int>) returns (unlocks: map<int, seq<int>>)
    requires ReadableSnapshot(issues)
    requires forall n :: n in numbers <==> InSnapshot(issues, n)
    ensures forall d :: d in unlocks <==> InSnapshot(issues, d) && exists n :: Blocks(issues, d, n)
    ensures forall d :: d in unlocks ==>
              Increasing(unlocks[d]) && forall n :: n in unlocks[d] <==> Blocks(issues, d, n)
  {
    hide InSnapshot;
    var all := Dependents(issues, numbers);
    unlocks := map d | d in all && all[d] != [] :: Sorted(all[d]);
    forall d | d in numbers
      ensures all[d] != [] <==> exists n :: Blocks(issues, d, n)
      ensures forall n :: n in all[d] <==> Blocks(issues, d, n)
    {
      assert Lists(issues, |issues|, all[d], BlockedBy(d));
      ListedBlocks(issues, all[d], d);
    }
  }

  lemma ListedBlocks(issues: seq<Issue>, numbers: seq<int>, d: int)
    requires Lists(issues, |issues|, numbers, BlockedBy(d))
    ensures forall n :: n in numbers <==> Blocks(issues, d, n)
    ensures numbers != [] <==> exists n :: Blocks(issues, d, n)
  {
    assert forall n :: n in numbers <==> Blocks(issues, d, n);
    if numbers != [] {
      assert numbers[0] in numbers && Blocks(issues, d, numbers[0]);
    }
    if n :| Blocks(issues, d, n) {
      assert n in numbers;
    }
  }

  /** Every number of the snapshot with the issues it blocks, in snapshot order. */
  method Dependents(issues: seq<Issue>, numbers: set<int>) returns (all: map<int, seq<int>>)
    requires ReadableSnapshot(issues)
    ensures all.Keys == numbers
    ensures forall d :: d in numbers ==> Lists(issues, |issues|, all[d], BlockedBy(d))
  {
    hide Lists;
    all := map n | n in numbers :: [];
    forall d | d in numbers {
      NoneListed(issues, BlockedBy(d));
    }
    for i := 0 to |issues|
      invariant all.Keys == numbers
      invariant forall d :: d in numbers ==> Lists(issues, i, all[d], BlockedBy(d))
    {
      forall d | d in numbers {
        ListsNext(issues, i, all[d], BlockedBy(d));
      }
      all := Unlock(all, issues[i].number, issues[i].blockers);
    }
  }

  lemma NoneListed(issues: seq<Issue>, t: Test)
    ensures Lists(issues, 0, [], t)
  {
  }

  // ---------------------------------------------------------------- what the plan's words mean

  /** The label is this lowercase word, capitals aside. */
  predicate Reads(text: string, word: string) {
    && |text| == |word|
    && forall k :: 0 <= k < |word| ==>
         text[k] == word[k] || ('A' <= text[k] <= 'Z' && text[k] as int + 32 == word[k] as int)
  }

  const DECISION_LABELS := ["needs-decision", "needs-source-scope", "needs-scope", "source-scope"]

  predicate IsLowercase(word: string) {
    forall c :: c in word ==> !('A' <= c <= 'Z')
  }

  lemma ReadsExactly(text: string, word: string)
    requires IsLowercase(word)
    ensures Reads(text, word) <==> Lower(text) == word
  {
    if |text| == |word| {
      forall k | 0 <= k < |word|
        ensures Lower(text)[k] == word[k] <==>
                  text[k] == word[k] || ('A' <= text[k] <= 'Z' && text[k] as int + 32 == word[k] as int)
      {
        assert word[k] in word;
      }
    }
  }

  /** The word stands somewhere in the label, capitals aside. */
  ghost predicate Holds(text: string, word: string) {
    exists x, y, z :: text == x + y + z && Reads(y, word)
  }

  lemma HoldsExactly(text: string, word: string)
    requires IsLowercase(word)
    ensures Holds(text, word) <==> Contains(Lower(text), word)
  {
    if x, y, z :| text == x + y + z && Reads(y, word) {
      ReadsExactly(y, word);
      assert Lower(text)[|x|..] == Lower(y) + Lower(z);
      assert word <= Lower(text)[|x|..];
    }
    if i :| 0 <= i <= |Lower(text)| && word <= Lower(text)[i..] {
      var x, y, z := text[..i], text[i..i + |word|], text[i + |word|..];
      assert text == x + y + z;
      assert Lower(y) == Lower(text)[i..][..|word|] == word;
      ReadsExactly(y, word);
    }
  }

  /** A decision label, or one that holds a marker; capitals never matter. */
  ghost predicate CallsForDecision(text: string) {
    || (exists w :: w in DECISION_LABELS && Reads(text, w))
    || Holds(text, "needs-decision") || Holds(text, "source-scope") || Holds(text, "needs-scope")
  }

  lemma DecisionExactly(i: Issue)
    ensures NeedsDecision(i) <==> exists l :: l in i.labels && CallsForDecision(l)
  {
    hide Holds, Reads, Lower, Contains;
    assert MARKERS[0] in MARKERS && MARKERS[1] in MARKERS && MARKERS[2] in MARKERS;
    forall l {
      LabelExactly(l);
    }
  }

  lemma LabelExactly(l: string)
    ensures forall m :: m in MARKERS ==> (Holds(l, m) <==> Contains(Lower(l), m))
    ensures forall w :: w in DECISION_LABELS && Reads(l, w) ==> exists m :: m in MARKERS && Contains(Lower(l), m)
  {
    hide Holds, Reads, Lower, Contains;
    forall m | m in MARKERS
      ensures Holds(l, m) <==> Contains(Lower(l), m)
    {
      HoldsExactly(l, m);
    }
    forall w | w in DECISION_LABELS && Reads(l, w)
      ensures exists m :: m in MARKERS && Contains(Lower(l), m)
    {
      ReadsExactly(l, w);
      DecisionLabelHoldsMarker(w);
    }
  }

  lemma DecisionLabelHoldsMarker(w: string)
    requires w in DECISION_LABELS
    ensures exists m :: m in MARKERS && Contains(w, m)
  {
    hide Contains;
    var i := if |w| == 18 then 6 else 0;
    assert w[i..] == MARKERS[0] || w[i..] == MARKERS[1] || w[i..] == MARKERS[2];
    EndsWith(w, w[i..], i);
  }

  lemma EndsWith(text: string, word: string, i: nat)
    requires i <= |text| && text[i..] == word
    ensures Contains(text, word)
  {
  }

  /** An issue aggregates others exactly if it has children or is labelled an epic. */
  lemma AggregateExactly(i: Issue)
    ensures Aggregates(i) <==> i.children != [] || exists l :: l in i.labels && Reads(l, "epic")
  {
    hide Reads, Lower;
    forall l {
      ReadsExactly(l, "epic");
    }
  }

  /** Who reports what about two claims, on the claims' own fields. */
  ghost predicate IsReport(clash: Clash, left: Holding, right: Holding) {
    && (clash.left, clash.right) == (left.issue, right.issue)
    && (forall p :: p in clash.paths <==> p in left.paths && exists q :: q in right.paths && Overlap(p, q))
    && (forall c :: c in clash.contracts <==> c in left.contracts && c in right.contracts)
  }

  /** There is one report, in order, for each two claims of one issue, with overlapping paths or with a shared
      contract, and none for any other two. */
  lemma ReportsExactly(claims: seq<Holding>, conflicts: seq<Clash>, found: seq<Pair>)
    requires Describes(claims, conflicts, found, |claims|, 0)
    ensures |conflicts| == |found|
    ensures forall k :: 0 <= k < |found| ==>
              && found[k].left < found[k].right < |claims|
              && IsReport(conflicts[k], claims[found[k].left], claims[found[k].right])
    ensures forall k, l :: 0 <= k < l < |found| ==>
              found[k].left < found[l].left || (found[k].left == found[l].left && found[k].right < found[l].right)
    ensures forall a, b :: 0 <= a < b < |claims| ==>
              (Pair(a, b) in found <==>
                || claims[a].issue == claims[b].issue
                || (exists p, q :: p in claims[a].paths && q in claims[b].paths && Overlap(p, q))
                || exists c :: c in claims[a].contracts && c in claims[b].contracts)
  {
    hide Overlap;
    assert forall a: nat, b: nat :: a < |claims| && b < |claims| ==> Before(Pair(a, b), |claims|, 0);
    forall k | 0 <= k < |found|
      ensures IsReport(conflicts[k], claims[found[k].left], claims[found[k].right])
    {
    }
  }

  /** What makes a snapshot, a claim or a pull request unreadable. */
  ghost predicate IsUnreadable(issues: seq<Issue>, claims: seq<Holding>, prs: seq<PullRequest>) {
    || (exists i, j :: 0 <= i < j < |issues| && issues[i].number == issues[j].number)
    || (exists i :: i in issues && (i.number < 1 || !Distinct(i.blockers) || !Distinct(i.children)))
    || (exists i, n :: i in issues && (n in i.blockers || n in i.children) && n < 1)
    || (exists i, l :: i in issues && l in i.labels && !NonBlank(l))
    || (exists c :: c in claims && c.issue < 1)
    || (exists p :: p in prs && (p.number < 1 || !Distinct(p.issues)))
    || exists p, n :: p in prs && n in p.issues && n < 1
  }

  lemma InputExactly(issues: seq<Issue>, claims: seq<Holding>, prs: seq<PullRequest>)
    ensures ReadableSnapshot(issues) && ReadableContext(claims, prs) <==> !IsUnreadable(issues, claims, prs)
  {
    hide NonBlank;
    if !IsUnreadable(issues, claims, prs) {
      forall i | 0 <= i < |issues|
        ensures ReadableIssue(issues[i])
      {
        assert issues[i] in issues;
      }
    }
  }

  /** The plan's lists keep the order and the repetitions of what they are drawn from: part by part. */
  lemma {:induction false} PathsInOrder(ps: seq<string>, qs: seq<string>, right: Holding)
    ensures OverlappingIn(ps + qs, right) == OverlappingIn(ps, right) + OverlappingIn(qs, right)
  {
    hide Overlap;
    if ps != [] {
      assert ps + qs == [ps[0]] + (ps[1..] + qs);
      PathsInOrder(ps[1..], qs, right);
    } else {
      assert ps + qs == qs;
    }
  }

  lemma {:induction false} OpenPullsInOrder(ps: seq<PullRequest>, qs: seq<PullRequest>, n: int)
    ensures OpenPulls(ps + qs, n) == OpenPulls(ps, n) + OpenPulls(qs, n)
  {
    if ps != [] {
      assert ps + qs == [ps[0]] + (ps[1..] + qs);
      OpenPullsInOrder(ps[1..], qs, n);
    } else {
      assert ps + qs == qs;
    }
  }

  lemma {:induction false} UnmappedInOrder(ps: seq<PullRequest>, qs: seq<PullRequest>)
    ensures Unmapped(ps + qs) == Unmapped(ps) + Unmapped(qs)
  {
    if ps != [] {
      assert ps + qs == [ps[0]] + (ps[1..] + qs);
      UnmappedInOrder(ps[1..], qs);
    } else {
      assert ps + qs == qs;
    }
  }

  lemma {:induction false} OutsideInOrder(ps: seq<int>, qs: seq<int>, numbers: set<int>)
    ensures Outside(ps + qs, numbers) == Outside(ps, numbers) + Outside(qs, numbers)
  {
    if ps != [] {
      assert ps + qs == [ps[0]] + (ps[1..] + qs);
      OutsideInOrder(ps[1..], qs, numbers);
    } else {
      assert ps + qs == qs;
    }
  }
}
