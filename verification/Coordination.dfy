/** The coordination record: its data, its whole-state validation and its ten transitions. */
module Coordination {
  import opened Text
  import opened Json
  import opened RepoPaths

  const REPOSITORY := "matejpalenik/inframeld"
  const MILESTONE := 1

  // ---------------------------------------------------------------- data

  datatype Binding = Binding(base: string, head: string, issueUpdatedAt: string)

  datatype Owner = Owner(worker: string, worktree: string, branch: string)

  datatype Scope = Scope(paths: seq<string>, contracts: seq<string>, checks: seq<string>, blockers: seq<Json>)

  /** The merge state of an issue, or the status of one observation. */
  datatype Merge = Unmerged | Uncertain | Merged | NotMerged | Unknown(text: string)

  datatype Claim = Active | Retired

  datatype Receipt = Receipt(binding: Binding, owner: Owner, stopped: bool, cleanup: string,
                             verified: bool, reference: string)

  datatype Observation = Observation(issue: int, status: Merge, source: string, pr: int, head: string,
                                     reference: string, observedAt: string, mergeSha: Option<string>)

  /** A supporting merge: an observation with the rest of its binding and its reviewed scope. */
  datatype Supporting = Supporting(seen: Observation, base: string, issueUpdatedAt: string,
                                   scope: string, assessment: string)

  /** The current fields of an assignment, all but its history. */
  datatype Snapshot = Snapshot(issue: int, owner: Owner, binding: Binding, scope: Scope, evidence: Record,
                               merge: Merge, claim: Claim, receipt: Option<Receipt>,
                               supporting: map<int, Supporting>)

  datatype Event = Event(revision: int, operation: Operation, previous: Snapshot)

  datatype Assignment = Assignment(now: Snapshot, history: seq<Event>)

  datatype Resource = Resource(issue: int, head: string, token: string, operation: string, reference: string)

  datatype Header = Header(repository: string, milestone: int, runId: string, coordinator: string,
                           authorization: string, allowed: seq<int>, mode: string)

  /** Dictionaries keyed by `str(n)` are keyed by n, see Text.DecimalInjective. */
  datatype State = State(header: Header, schema: int, revision: int, assignments: map<int, Assignment>,
                         resources: map<string, Resource>, observations: map<int, Observation>)

  datatype Changes = Changes(paths: Option<seq<string>>, contracts: Option<seq<string>>,
                             checks: Option<seq<string>>, blockers: Option<seq<Json>>)

  datatype Operation =
    | ClaimIssue(issue: int, binding: Binding, owner: Owner, scope: Scope)
    | Revise(issue: int, binding: Binding)
    | Amend(issue: int, binding: Binding, changes: Changes, reference: string)
    | Adopt(issue: int, binding: Binding, owner: Owner, receipt: Receipt)
    | Retire(issue: int, binding: Binding, receipt: Receipt)
    | RecordEvidence(issue: int, binding: Binding, evidence: Record)
    | Reserve(issue: int, resource: string, token: string, head: string, operation: string, reference: string)
    | Release(resource: string, token: string, head: string, cleanup: string, reference: string)
    | ObserveMerge(seen: Observation)
    | ObservePrerequisite(support: Supporting)

  /** One update: the operation and the absolute path its worktree resolves to on this host. */
  datatype Request = Request(operation: Operation, resolved: string)

  // ---------------------------------------------------------------- validation

  predicate ValidBinding(b: Binding) {
    IsSha(b.base) && IsSha(b.head) && NonBlank(b.issueUpdatedAt)
  }

  function BindingOf(m: Supporting): Binding {
    Binding(m.base, m.seen.head, m.issueUpdatedAt)
  }

  function PullUrl(pr: nat): string {
    "https://github.com/" + REPOSITORY + "/pull/" + Decimal(pr)
  }

  predicate ValidObservation(o: Observation) {
    && (o.status.Uncertain? || o.status.Merged? || o.status.NotMerged?)
    && o.source == "github"
    && o.pr >= 1
    && o.reference == PullUrl(o.pr)
    && IsSha(o.head)
    && NonBlank(o.observedAt)
    && (o.status.Merged? ==> o.mergeSha.Some? && IsSha(o.mergeSha.value))
  }

  predicate ValidSupporting(m: Supporting) {
    ValidObservation(m.seen) && ValidBinding(BindingOf(m)) && NonBlank(m.scope) && NonBlank(m.assessment)
  }

  predicate ValidOwner(o: Owner) {
    NonBlank(o.worker) && NonBlank(o.worktree) && IsAbsolute(o.worktree) && NonBlank(o.branch)
  }

  predicate AreTexts(texts: seq<string>) {
    (forall t :: t in texts ==> NonBlank(t)) && IsDistinct(texts)
  }

  predicate ValidScope(s: Scope) {
    ArePaths(s.paths) && AreTexts(s.contracts) && AreTexts(s.checks) && s.checks != []
  }

  /** Positive stop and cleanup evidence for exactly this owner and binding. */
  predicate Stops(r: Receipt, a: Snapshot) {
    && r.binding == a.binding
    && r.owner == a.owner
    && r.stopped && r.cleanup == "verified_clean" && r.verified
    && NonBlank(r.reference)
  }

  predicate SupportUncertain(a: Snapshot) {
    exists pr :: pr in a.supporting && a.supporting[pr].seen.status.Uncertain?
  }

  predicate ValidSnapshot(a: Snapshot) {
    && a.issue >= 1
    && ValidOwner(a.owner) && ValidScope(a.scope) && ValidBinding(a.binding)
    && (forall pr :: pr in a.supporting ==>
          ValidSupporting(a.supporting[pr]) && pr == a.supporting[pr].seen.pr
          && a.supporting[pr].seen.issue == a.issue)
    && !a.merge.Unknown?
    && (a.claim.Retired? ==>
          && !a.merge.Uncertain? && !SupportUncertain(a)
          && a.receipt.Some? && Stops(a.receipt.value, a))
  }

  predicate ValidAssignment(a: Assignment) {
    ValidSnapshot(a.now) && forall i :: 0 <= i < |a.history| ==> a.history[i].revision >= 1
  }

  predicate ValidHeader(h: Header) {
    && h.repository == REPOSITORY && h.milestone == MILESTONE
    && (h.mode == "live" || h.mode == "rehearsal")
    && NonBlank(h.runId) && NonBlank(h.coordinator) && NonBlank(h.authorization)
    && (forall n :: n in h.allowed ==> n >= 1) && IsDistinct(h.allowed) && h.allowed != []
  }

  predicate ValidAssignments(s: State) {
    forall k :: k in s.assignments ==>
      && ValidAssignment(s.assignments[k])
      && (s.schema == 1 ==> s.assignments[k].now.supporting == map[])
      && k == s.assignments[k].now.issue && k in s.header.allowed
  }

  /** Two claims that may both be occupied. */
  predicate Compatible(a: Snapshot, b: Snapshot) {
    && a.owner.worktree != b.owner.worktree
    && a.owner.branch != b.owner.branch
    && a.owner.worker != b.owner.worker
    && (forall p, q :: p in a.scope.paths && q in b.scope.paths ==> !Overlap(p, q))
    && (forall c :: c in a.scope.contracts ==> c !in b.scope.contracts)
  }

  predicate Occupied(assignments: map<int, Assignment>, k: int) {
    k in assignments && assignments[k].now.claim.Active?
  }

  ghost predicate Exclusive(assignments: map<int, Assignment>) {
    forall j, k :: Occupied(assignments, j) && Occupied(assignments, k) && j != k ==>
      Compatible(assignments[j].now, assignments[k].now)
  }

  predicate ValidResource(s: State, name: string, r: Resource) {
    && IsResourceName(name)
    && r.issue >= 1 && Occupied(s.assignments, r.issue)
    && NonBlank(r.token) && NonBlank(r.operation) && NonBlank(r.reference) && IsSha(r.head)
  }

  predicate ValidResources(s: State) {
    forall name :: name in s.resources ==> ValidResource(s, name, s.resources[name])
  }

  predicate ValidObservations(s: State) {
    && (forall k :: k in s.observations ==>
          && k in s.assignments && ValidObservation(s.observations[k])
          && s.observations[k].status == s.assignments[k].now.merge
          && s.observations[k].head == s.assignments[k].now.binding.head)
    && (forall k :: k in s.assignments && k !in s.observations ==> s.assignments[k].now.merge.Unmerged?)
  }

  ghost predicate ValidState(s: State) {
    && s.schema in {1, 2} && s.revision >= 0
    && ValidHeader(s.header)
    && ValidAssignments(s) && Exclusive(s.assignments)
    && ValidResources(s) && ValidObservations(s)
  }

  // ---------------------------------------------------------------- transitions

  /** The issue an operation acts on; a release acts on the owner of its resource. */
  function Target(s: State, op: Operation): int {
    match op
    case Release(name, _, _, _, _) => if name in s.resources then s.resources[name].issue else 0
    case ObserveMerge(o) => o.issue
    case ObservePrerequisite(m) => m.seen.issue
    case _ => op.issue
  }

  predicate Archives(op: Operation) {
    !op.ClaimIssue? && !op.RecordEvidence? && !op.Reserve?
  }

  function Amended(s: Scope, c: Changes): Scope {
    Scope(
      if c.paths.Some? then c.paths.value else s.paths,
      if c.contracts.Some? then c.contracts.value else s.contracts,
      if c.checks.Some? then c.checks.value else s.checks,
      if c.blockers.Some? then c.blockers.value else s.blockers)
  }

  /** What an operation makes of the current fields of its target. */
  function Local(a: Snapshot, r: Request): Snapshot {
    match r.operation
    case Revise(_, b) => a.(binding := b, evidence := map[], merge := Unmerged)
    case Amend(_, _, changes, _) => a.(scope := Amended(a.scope, changes), evidence := map[])
    case Adopt(_, _, owner, _) =>
      a.(owner := owner.(worktree := r.resolved), claim := Active, receipt := None, evidence := map[])
    case Retire(_, _, receipt) => a.(claim := Retired, receipt := Some(receipt), evidence := map[])
    case RecordEvidence(_, _, evidence) => a.(evidence := evidence)
    case ObserveMerge(o) => a.(merge := o.status)
    case ObservePrerequisite(m) => a.(supporting := a.supporting[m.seen.pr := m])
    case _ => a
  }

  function Claimed(r: Request): Assignment
    requires r.operation.ClaimIssue?
  {
    var op := r.operation;
    Assignment(
      Snapshot(op.issue, op.owner.(worktree := r.resolved), op.binding, op.scope, map[], Unmerged, Active,
               None, map[]),
      [])
  }

  predicate Held(s: State, k: int) {
    exists name :: name in s.resources && s.resources[name].issue == k
  }

  predicate InScope(s: State, k: int) {
    k >= 1 && k in s.header.allowed
  }

  /** An observation carries a merge commit only when it reports a merge. */
  predicate KnownFields(o: Observation) {
    o.mergeSha.Some? ==> o.status.Merged?
  }

  ghost predicate AdmitsRelease(s: State, op: Operation)
    requires op.Release?
  {
    && NonBlank(op.resource) && op.resource in s.resources
    && var held := s.resources[op.resource];
    && op.token == held.token && op.cleanup == "verified_clean" && op.head == held.head
    && NonBlank(op.reference) && held.issue in s.assignments
  }

  ghost predicate AdmitsClaim(s: State, r: Request)
    requires r.operation.ClaimIssue?
  {
    var op := r.operation;
    && InScope(s, op.issue) && op.issue !in s.assignments
    && NonBlank(op.owner.worktree) && IsAbsolute(op.owner.worktree)
    && ValidAssignment(Claimed(r))
    && Exclusive(s.assignments[op.issue := Claimed(r)])
  }

  ghost predicate AdmitsPrerequisite(a: Snapshot, m: Supporting) {
    && KnownFields(m.seen) && ValidObservation(m.seen)
    && BindingOf(m) == a.binding
    && a.claim.Active? && !a.merge.Uncertain? && !a.merge.Merged?
    && NonBlank(m.scope) && NonBlank(m.assessment)
    && (m.seen.pr in a.supporting ==>
          var previous := a.supporting[m.seen.pr];
          && !previous.seen.status.Merged?
          && (previous.seen.status.Uncertain? ==>
                BindingOf(previous) == BindingOf(m) && previous.scope == m.scope
                && previous.assessment == m.assessment))
    && (SupportUncertain(a) ==>
          m.seen.pr in a.supporting && a.supporting[m.seen.pr].seen.status.Uncertain?)
  }

  /** The guards of the operations on an already assigned issue, beyond its being in scope. */
  ghost predicate AdmitsOn(s: State, k: int, r: Request)
    requires k in s.assignments
  {
    var a := s.assignments[k].now;
    var changed := s.assignments[k := Assignment(Local(a, r), [])];
    match r.operation
    case ObservePrerequisite(m) => AdmitsPrerequisite(a, m)
    case ObserveMerge(o) =>
      && !SupportUncertain(a)
      && KnownFields(o) && ValidObservation(o) && o.head == a.binding.head
      && (a.merge.Merged? ==> o.status.Merged?)
    case Retire(_, b, receipt) =>
      && !SupportUncertain(a) && !a.merge.Uncertain?
      && b == a.binding && !Held(s, k)
      && a.claim.Active? && Stops(receipt, a)
    case Adopt(_, b, owner, receipt) =>
      && !SupportUncertain(a) && !a.merge.Uncertain? && !a.merge.Merged?
      && b == a.binding && !Held(s, k) && Stops(receipt, a)
      && NonBlank(owner.worktree) && IsAbsolute(owner.worktree)
      && ValidSnapshot(Local(a, r)) && Exclusive(changed)
    case Revise(_, b) =>
      && !SupportUncertain(a) && !a.merge.Uncertain? && !a.merge.Merged? && a.claim.Active?
      && !Held(s, k) && ValidBinding(b)
    case Amend(_, b, changes, reference) =>
      && !SupportUncertain(a) && !a.merge.Uncertain? && !a.merge.Merged? && a.claim.Active?
      && b == a.binding && !Held(s, k)
      && changes != Changes(None, None, None, None) && NonBlank(reference)
      && ValidSnapshot(Local(a, r)) && Exclusive(changed)
    case RecordEvidence(_, b, _) =>
      && !SupportUncertain(a) && !a.merge.Uncertain? && !a.merge.Merged? && a.claim.Active?
      && b == a.binding
    case Reserve(_, name, _, head, _, _) =>
      && !SupportUncertain(a) && !a.merge.Uncertain? && !a.merge.Merged? && a.claim.Active?
      && NonBlank(name) && name !in s.resources && head == a.binding.head
    case _ => false
  }

  /** The requests that `_operate` lets through. */
  ghost predicate Admits(s: State, r: Request) {
    match r.operation
    case Release(_, _, _, _, _) => AdmitsRelease(s, r.operation)
    case ClaimIssue(_, _, _, _) => AdmitsClaim(s, r)
    case _ =>
      var k := Target(s, r.operation);
      InScope(s, k) && k in s.assignments && AdmitsOn(s, k, r)
  }

  /** Every request but a claim acts on an assigned issue. */
  predicate Targeted(s: State, r: Request) {
    r.operation.ClaimIssue? != (Target(s, r.operation) in s.assignments)
  }

  function Assigned(s: State, r: Request): map<int, Assignment>
    requires Targeted(s, r)
  {
    var op, k := r.operation, Target(s, r.operation);
    if op.ClaimIssue? then s.assignments[k := Claimed(r)]
    else
      var a := s.assignments[k];
      var history := if Archives(op) then a.history + [Event(s.revision + 1, op, a.now)] else a.history;
      s.assignments[k := Assignment(Local(a.now, r), history)]
  }

  function Reserved(s: State, op: Operation): map<string, Resource> {
    match op
    case Reserve(k, name, token, head, operation, reference) =>
      s.resources[name := Resource(k, head, token, operation, reference)]
    case Release(name, _, _, _, _) => s.resources - {name}
    case _ => s.resources
  }

  function Observed(s: State, op: Operation): map<int, Observation> {
    match op
    case ObserveMerge(o) => s.observations[o.issue := o]
    case Revise(k, _) => s.observations - {k}
    case _ => s.observations
  }

  /** The record after an operation, still at its old revision. */
  function Result(s: State, r: Request): State
    requires Targeted(s, r)
  {
    s.(assignments := Assigned(s, r),
       resources := Reserved(s, r.operation),
       observations := Observed(s, r.operation),
       schema := if r.operation.ObservePrerequisite? then 2 else s.schema)
  }

  /** The record that `apply` would write. */
  function Committed(s: State, r: Request): State
    requires Targeted(s, r)
  {
    Result(s, r).(revision := s.revision + 1)
  }

  // ---------------------------------------------------------------- preservation

  /** The two admitted requests that whole-state validation refuses. */
  predicate Refused(s: State, r: Request) {
    match r.operation
    case Reserve(_, name, token, _, operation, reference) =>
      !(IsResourceName(name) && NonBlank(token) && NonBlank(operation) && NonBlank(reference))
    case ObserveMerge(o) =>
      o.status.Uncertain? && o.issue in s.assignments && s.assignments[o.issue].now.claim.Retired?
    case _ => false
  }

  /** An admitted request leads to a valid record in all but exactly two cases. */
  lemma Preservation(s: State, r: Request)
    requires ValidState(s) && Targeted(s, r) && Admits(s, r)
    ensures ValidState(Committed(s, r)) <==> !Refused(s, r)
  {
    hide Admits, ValidState, Refused, Committed;
    if Refused(s, r) {
      RefusedIsInvalid(s, r);
    } else {
      AcceptedIsValid(s, r);
    }
  }

  lemma AcceptedIsValid(s: State, r: Request)
    requires ValidState(s) && Targeted(s, r) && Admits(s, r) && !Refused(s, r)
    ensures ValidState(Committed(s, r))
  {
    hide Admits, Refused, ValidAssignments, Exclusive, ValidResources, ValidObservations;
    AssignmentsKept(s, r);
    ExclusiveKept(s, r);
    ResourcesKept(s, r);
    ObservationsKept(s, r);
    Reassembled(s, r);
  }

  lemma Reassembled(s: State, r: Request)
    requires Targeted(s, r) && ValidHeader(s.header) && s.revision >= 0 && s.schema in {1, 2}
    requires var t := Committed(s, r);
             ValidAssignments(t) && Exclusive(t.assignments) && ValidResources(t) && ValidObservations(t)
    ensures ValidState(Committed(s, r))
  {
  }

  /** Only the target of a request changes, and only as `Local` says. */
  lemma Shape(s: State, r: Request)
    requires Targeted(s, r)
    ensures var t, k := Committed(s, r), Target(s, r.operation);
            && t.header == s.header && t.revision == s.revision + 1
            && t.assignments.Keys == s.assignments.Keys + {k}
            && (forall j :: j in s.assignments && j != k ==> t.assignments[j] == s.assignments[j])
            && (r.operation.ClaimIssue? ==> k !in s.assignments && t.assignments[k] == Claimed(r))
            && (!r.operation.ClaimIssue? ==>
                  && k in s.assignments
                  && t.assignments[k].now == Local(s.assignments[k].now, r)
                  && t.assignments[k].history ==
                       if Archives(r.operation)
                       then s.assignments[k].history + [Event(t.revision, r.operation, s.assignments[k].now)]
                       else s.assignments[k].history)
  {
  }

  lemma RefusedIsInvalid(s: State, r: Request)
    requires Targeted(s, r) && Admits(s, r) && Refused(s, r)
    ensures !ValidState(Committed(s, r))
  {
    var t, k := Committed(s, r), Target(s, r.operation);
    if r.operation.Reserve? {
      assert r.operation.resource in t.resources;
      assert !ValidResource(t, r.operation.resource, t.resources[r.operation.resource]);
    } else {
      assert !ValidSnapshot(t.assignments[k].now);
    }
  }

  /** The guards admit a reservation of any free name, whatever else it says; validation wants more. */
  lemma MalformedReservationIsAdmitted(s: State, k: int, name: string, token: string, operation: string,
                                       reference: string)
    requires ValidState(s) && Occupied(s.assignments, k) && name !in s.resources && NonBlank(name)
    requires var a := s.assignments[k].now; !a.merge.Uncertain? && !a.merge.Merged? && !SupportUncertain(a)
    ensures var r := Request(Reserve(k, name, token, s.assignments[k].now.binding.head, operation, reference), "");
            && Targeted(s, r) && Admits(s, r)
            && (Refused(s, r) <==>
                  !(IsResourceName(name) && NonBlank(token) && NonBlank(operation) && NonBlank(reference)))
  {
    assert ValidAssignment(s.assignments[k]);
  }

  /** The guards admit any well-formed observation of a retired, unmerged issue's head, an uncertain one too. */
  lemma UncertainAfterRetirementIsAdmitted(s: State, k: int, o: Observation)
    requires ValidState(s) && k in s.assignments && s.assignments[k].now.claim.Retired?
    requires !s.assignments[k].now.merge.Merged?
    requires KnownFields(o) && ValidObservation(o) && o.issue == k && o.head == s.assignments[k].now.binding.head
    ensures var r := Request(ObserveMerge(o), "");
            Targeted(s, r) && Admits(s, r) && (Refused(s, r) <==> o.status.Uncertain?)
  {
    assert ValidAssignment(s.assignments[k]);
  }

  lemma AssignmentsKept(s: State, r: Request)
    requires s.schema in {1, 2} && s.revision >= 0
    requires ValidAssignments(s) && Targeted(s, r) && Admits(s, r) && !Refused(s, r)
    ensures ValidAssignments(Committed(s, r))
  {
    hide AdmitsOn, AdmitsRelease, ValidSnapshot, Exclusive, Refused;
    var t, k := Committed(s, r), Target(s, r.operation);
    Shape(s, r);
    if !r.operation.ClaimIssue? {
      assert ValidAssignment(s.assignments[k]);
      LocalKept(s, k, r);
    }
    forall j | j in t.assignments
      ensures ValidAssignment(t.assignments[j])
      ensures t.schema == 1 ==> t.assignments[j].now.supporting == map[]
      ensures j == t.assignments[j].now.issue && j in t.header.allowed
    {
      assert j != k ==> t.assignments[j] == s.assignments[j];
    }
  }

  lemma LocalKept(s: State, k: int, r: Request)
    requires k in s.assignments && k == Target(s, r.operation) && ValidSnapshot(s.assignments[k].now)
    requires k == s.assignments[k].now.issue
    requires r.operation.Release? || (!r.operation.ClaimIssue? && AdmitsOn(s, k, r))
    requires !Refused(s, r)
    ensures ValidSnapshot(Local(s.assignments[k].now, r))
  {
    hide Exclusive, ValidOwner, ValidScope, ValidBinding, ValidSupporting, AdmitsPrerequisite;
    var a := s.assignments[k].now;
    var b := Local(a, r);
    if r.operation.ObservePrerequisite? {
      SupportKept(a, r.operation.support);
    } else {
      assert b.supporting == a.supporting;
      assert SupportUncertain(b) == SupportUncertain(a);
    }
  }

  lemma SupportKept(a: Snapshot, m: Supporting)
    requires ValidSnapshot(a) && AdmitsPrerequisite(a, m) && m.seen.issue == a.issue
    ensures ValidSnapshot(a.(supporting := a.supporting[m.seen.pr := m]))
  {
    hide ValidOwner, ValidScope, ValidBinding, ValidObservation;
    var b := a.(supporting := a.supporting[m.seen.pr := m]);
    assert forall pr :: pr in b.supporting ==> b.supporting[pr] == if pr == m.seen.pr then m else a.supporting[pr];
  }

  lemma ExclusiveKept(s: State, r: Request)
    requires Exclusive(s.assignments) && Targeted(s, r) && Admits(s, r)
    ensures Exclusive(Committed(s, r).assignments)
  {
    hide ValidSnapshot, ValidBinding, Exclusive, AdmitsPrerequisite, AdmitsRelease;
    var op, k, t := r.operation, Target(s, r.operation), Committed(s, r);
    Shape(s, r);
    if op.Adopt? || op.Amend? {
      var changed := s.assignments[k := Assignment(Local(s.assignments[k].now, r), [])];
      ExclusiveTransfer(changed, t.assignments);
    } else if !op.ClaimIssue? {
      ExclusiveTransfer(s.assignments, t.assignments);
    }
  }

  /** Exclusivity needs only the owners and scopes of the occupied claims. */
  lemma ExclusiveTransfer(m: map<int, Assignment>, n: map<int, Assignment>)
    requires Exclusive(m)
    requires forall j :: Occupied(n, j) ==>
               Occupied(m, j) && n[j].now.owner == m[j].now.owner && n[j].now.scope == m[j].now.scope
    ensures Exclusive(n)
  {
    forall j, k | Occupied(n, j) && Occupied(n, k) && j != k
      ensures Compatible(n[j].now, n[k].now)
    {
      assert Occupied(m, j) && Occupied(m, k);
      assert Compatible(m[j].now, m[k].now);
    }
  }

  lemma ResourcesKept(s: State, r: Request)
    requires ValidResources(s) && ValidAssignments(s) && Targeted(s, r) && Admits(s, r) && !Refused(s, r)
    ensures ValidResources(Committed(s, r))
  {
    hide Exclusive, AdmitsPrerequisite, ValidOwner, ValidScope, ValidSupporting, ValidObservation, Stops;
    var t, k := Committed(s, r), Target(s, r.operation);
    forall name | name in t.resources
      ensures ValidResource(t, name, t.resources[name])
    {
      if r.operation.Reserve? && name == r.operation.resource {
        assert ValidSnapshot(s.assignments[k].now);
      } else {
        HolderStaysOccupied(s, r, name);
      }
    }
  }

  /** A holder of a resource is never retired. */
  lemma HolderStaysOccupied(s: State, r: Request, name: string)
    requires Targeted(s, r) && name in s.resources && ValidResource(s, name, s.resources[name])
    requires r.operation.Retire? ==> !Held(s, Target(s, r.operation))
    ensures ValidResource(Committed(s, r), name, s.resources[name])
  {
    Shape(s, r);
    assert Held(s, s.resources[name].issue);
  }

  lemma ObservationsKept(s: State, r: Request)
    requires ValidObservations(s) && Targeted(s, r) && Admits(s, r)
    ensures ValidObservations(Committed(s, r))
  {
    hide Exclusive, ValidAssignment, ValidSnapshot, ValidObservation, AdmitsRelease;
    Shape(s, r);
  }
}
