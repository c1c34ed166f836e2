/** The compact projection of the record that the command line prints. */
module Summary {
  import opened Text
  import opened Sorting
  import opened Coordination
  import opened DeliveryStore
  import opened Runs
  import opened Safety

  datatype MergeLine = MergeLine(pr: int, status: Merge, head: string)

  datatype Line = Line(issue: int, owner: Owner, paths: seq<string>, contracts: seq<string>, binding: Binding,
                       merge: Merge, checks: seq<string>, claim: Claim, blockerCount: nat,
                       uncertain: map<int, MergeLine>)

  datatype HolderLine = HolderLine(issue: int, worker: string, head: string)

  /** What the summary says about the operation just applied. */
  datatype Applied = AppliedOp(op: string, issue: Option<int>, resource: Option<string>)

  datatype Report = Report(schema: int, repository: string, milestone: int, runId: string, coordinator: string,
                           mode: string, revision: int, assignments: map<int, Line>, occupied: seq<int>,
                           resources: map<string, HolderLine>, uncertainMerges: map<int, MergeLine>,
                           applied: Option<Applied>)

  function OpName(op: Operation): string {
    match op
    case ClaimIssue(_, _, _, _) => "claim"
    case Revise(_, _) => "revise"
    case Amend(_, _, _, _) => "amend"
    case Adopt(_, _, _, _) => "adopt"
    case Retire(_, _, _) => "retire"
    case RecordEvidence(_, _, _) => "evidence"
    case Reserve(_, _, _, _, _, _) => "reserve"
    case Release(_, _, _, _, _) => "release"
    case ObserveMerge(_) => "observe_merge"
    case ObservePrerequisite(_) => "observe_prerequisite_merge"
  }

  /** The issue that an operation names; a release names only its resource. */
  function Affected(op: Operation): Option<int> {
    match op
    case Release(_, _, _, _, _) => None
    case ObserveMerge(o) => Some(o.issue)
    case ObservePrerequisite(m) => Some(m.seen.issue)
    case _ => Some(op.issue)
  }

  function AppliedLine(op: Operation): Applied {
    AppliedOp(OpName(op), Affected(op), if op.Reserve? || op.Release? then Some(op.resource) else None)
  }

  function MergeSummary(o: Observation): MergeLine {
    MergeLine(o.pr, o.status, o.head)
  }

  function Project(a: Snapshot): Line {
    Line(a.issue, a.owner, a.scope.paths, a.scope.contracts, a.binding, a.merge, a.scope.checks, a.claim,
         |a.scope.blockers|,
         map pr | pr in a.supporting && a.supporting[pr].seen.status.Uncertain? :: MergeSummary(a.supporting[pr].seen))
  }

  /** The operation is about this issue; a release names none. */
  predicate NamesIssue(op: Operation, k: int) {
    match op
    case ObserveMerge(o) => o.issue == k
    case ObservePrerequisite(m) => m.seen.issue == k
    case Release(_, _, _, _, _) => false
    case _ => op.issue == k
  }

  /** The words of the record's schema, one for each operation. */
  const WORDS := {"claim", "revise", "amend", "adopt", "retire", "evidence", "reserve", "release", "observe_merge",
                  "observe_prerequisite_merge"}

  /** The line says which operation was applied, and the issue and the resource it named. */
  ghost predicate Announces(line: Applied, op: Operation) {
    && line.op in WORDS
    && (line.op == "claim" <==> op.ClaimIssue?) && (line.op == "revise" <==> op.Revise?)
    && (line.op == "amend" <==> op.Amend?) && (line.op == "adopt" <==> op.Adopt?)
    && (line.op == "retire" <==> op.Retire?) && (line.op == "evidence" <==> op.RecordEvidence?)
    && (line.op == "reserve" <==> op.Reserve?) && (line.op == "release" <==> op.Release?)
    && (line.op == "observe_merge" <==> op.ObserveMerge?)
    && (line.op == "observe_prerequisite_merge" <==> op.ObservePrerequisite?)
    && (forall k :: line.issue == Some(k) <==> NamesIssue(op, k))
    && (forall name :: line.resource == Some(name) <==> (op.Reserve? || op.Release?) && op.resource == name)
  }

  lemma AppliedExactly(op: Operation)
    ensures Announces(AppliedLine(op), op)
    ensures forall k :: Affected(op) == Some(k) <==> NamesIssue(op, k)
  {
  }

  function AffectedBy(operation: Option<Operation>): Option<int> {
    if operation.Some? then Affected(operation.value) else None
  }

  /** A retired and merged issue is left out unless the operation just applied named it. */
  predicate Hidden(a: Snapshot, affected: Option<int>) {
    a.claim.Retired? && a.merge.Merged? && affected != Some(a.issue)
  }

  /** The lookups of the summary cannot fail, and its keys are the numbers of the issues. */
  predicate Summarizable(s: State) {
    && (forall name :: name in s.resources ==> s.resources[name].issue in s.assignments)
    && (forall k :: k in s.assignments ==> s.assignments[k].now.issue == k)
  }

  /** Every record of every run can be summarized. */
  lemma RunsAreSummarizable(states: seq<State>, requests: seq<Request>, n: nat)
    requires IsRun(states, requests) && n <= |requests|
    ensures |states| == |requests| + 1 && Summarizable(states[n])
  {
    StatesAreValid(states, requests, n);
    forall name | name in states[n].resources {
      HolderIsActive(states[n], name);
    }
  }

  method Summarize(s: State, operation: Option<Operation>) returns (report: Report)
    requires Summarizable(s)
    ensures report.schema == s.schema && report.revision == s.revision
    ensures (report.repository, report.milestone, report.runId, report.coordinator, report.mode) ==
            (s.header.repository, s.header.milestone, s.header.runId, s.header.coordinator, s.header.mode)
    ensures forall k :: k in report.assignments <==>
              && k in s.assignments
              && (|| s.assignments[k].now.claim == Active || s.assignments[k].now.merge != Merged
                  || (operation.Some? && NamesIssue(operation.value, k)))
    ensures forall k :: k in report.assignments ==>
              var line, a := report.assignments[k], s.assignments[k].now;
              && line.issue == k && line.owner == a.owner && line.binding == a.binding
              && line.paths == a.scope.paths && line.contracts == a.scope.contracts && line.checks == a.scope.checks
              && line.merge == a.merge && line.claim == a.claim && line.blockerCount == |a.scope.blockers|
    ensures forall k, pr :: k in report.assignments ==>
              var line, a := report.assignments[k], s.assignments[k].now;
              && (pr in line.uncertain <==> pr in a.supporting && a.supporting[pr].seen.status == Uncertain)
              && (pr in line.uncertain ==>
                    && line.uncertain[pr].status == Uncertain
                    && line.uncertain[pr].pr == a.supporting[pr].seen.pr
                    && line.uncertain[pr].head == a.supporting[pr].seen.head)
    ensures Increasing(report.occupied) && forall k :: k in report.occupied <==> Occupied(s.assignments, k)
    ensures report.resources.Keys == s.resources.Keys
    ensures forall name :: name in s.resources ==>
              report.resources[name] ==
                   HolderLine(s.resources[name].issue, s.assignments[s.resources[name].issue].now.owner.worker,
                              s.resources[name].head)
    ensures forall k :: k in report.uncertainMerges <==> k in s.observations && s.observations[k].status == Uncertain
    ensures forall k :: k in report.uncertainMerges ==>
              && report.uncertainMerges[k].status == Uncertain
              && report.uncertainMerges[k].pr == s.observations[k].pr
              && report.uncertainMerges[k].head == s.observations[k].head
    ensures report.applied.Some? <==> operation.Some?
    ensures operation.Some? ==> Announces(report.applied.value, operation.value)
  {
    var affected := AffectedBy(operation);
    if operation.Some? {
      AppliedExactly(operation.value);
    }
    var current: map<int, Line> := map[];
    var rest := s.assignments.Keys;
    while rest != {}
      invariant rest <= s.assignments.Keys
      invariant forall k :: k in current <==>
                  k in s.assignments && k !in rest && !Hidden(s.assignments[k].now, affected)
      invariant forall k :: k in current ==> current[k] == Project(s.assignments[k].now)
      decreases rest
    {
      var k := Pick(rest);
      rest := rest - {k};
      if !Hidden(s.assignments[k].now, affected) {
        current := current[k := Project(s.assignments[k].now)];
      }
    }
    var holders := Holders(s);
    var occupied := OccupiedIssues(s.assignments);
    var uncertain := map k | k in s.observations && s.observations[k].status.Uncertain?
      :: MergeSummary(s.observations[k]);
    var applied := if operation.Some? then Some(AppliedLine(operation.value)) else None;
    report := Report(s.schema, s.header.repository, s.header.milestone, s.header.runId, s.header.coordinator,
                     s.header.mode, s.revision, current, Sorted(occupied), holders, uncertain, applied);
  }

  method Holders(s: State) returns (holders: map<string, HolderLine>)
    requires Summarizable(s)
    ensures holders.Keys == s.resources.Keys
    ensures forall name :: name in s.resources ==>
              holders[name] ==
                   HolderLine(s.resources[name].issue, s.assignments[s.resources[name].issue].now.owner.worker,
                              s.resources[name].head)
  {
    holders := map[];
    var rest := s.resources.Keys;
    while rest != {}
      invariant rest <= s.resources.Keys
      invariant holders.Keys == s.resources.Keys - rest
      invariant forall name :: name in holders ==>
                  holders[name] ==
                       HolderLine(s.resources[name].issue, s.assignments[s.resources[name].issue].now.owner.worker,
                                  s.resources[name].head)
      decreases rest
    {
      var name := Pick(rest);
      rest := rest - {name};
      var resource := s.resources[name];
      var owner := s.assignments[resource.issue].now.owner;
      holders := holders[name := HolderLine(resource.issue, owner.worker, resource.head)];
    }
  }

  /** What the summary leaves out holds nothing open, and no later update can reopen it. */
  lemma HiddenIsTerminal(states: seq<State>, requests: seq<Request>, m: nat, n: nat, k: int, affected: Option<int>)
    requires IsRun(states, requests) && m <= n <= |requests|
    requires k in states[m].assignments && Hidden(states[m].assignments[k].now, affected)
    ensures !Occupied(states[m].assignments, k) && !SupportUncertain(states[m].assignments[k].now)
    ensures k in states[m].observations && states[m].observations[k].status.Merged?
    ensures forall name :: name in states[m].resources ==> states[m].resources[name].issue != k
    ensures k in states[n].assignments && states[n].assignments[k].now == states[m].assignments[k].now
  {
    hide Commits;
    StatesAreValid(states, requests, m);
    MergedIsForever(states, requests, m, n, k);
    assert ValidAssignment(states[m].assignments[k]);
    forall name | name in states[m].resources
      ensures states[m].resources[name].issue != k
    {
      HolderIsActive(states[m], name);
    }
  }

  /** So every occupied claim, every holder and every uncertain merge is listed with its issue. */
  lemma NothingOpenIsHidden(s: State, affected: Option<int>, k: int)
    requires ValidState(s) && k in s.assignments
    requires || Occupied(s.assignments, k)
             || (exists name :: name in s.resources && s.resources[name].issue == k)
             || (k in s.observations && s.observations[k].status.Uncertain?)
             || SupportUncertain(s.assignments[k].now)
    ensures !Hidden(s.assignments[k].now, affected)
  {
    assert ValidAssignment(s.assignments[k]);
    if name :| name in s.resources && s.resources[name].issue == k {
      HolderIsActive(s, name);
    }
  }
}
