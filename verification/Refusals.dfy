/** What the store refuses: each ground on which a request is turned away, told from the record and the request. */
module Refusals {
  import opened Text
  import opened RepoPaths
  import opened Coordination
  import opened Defects

  datatype Ground =
    | NotAllowed | AlreadyAssigned | Unassigned
    | NothingReserved | OtherToken | UncleanRelease | Unreferenced
    | UnusableWorktree | FlawedResult(flaw: Flaw) | Collision(other: int)
    | UnknownField | UnfitObservation | OtherBinding | UnfitBinding
    | ClosedToSupport | UnnamedSupport | SupportSettled | SupportRebound | AnotherSupportPending
    | SupportPending | MergedReverted | MergePending | MergeDone | ResourcesKept | Inactive | UnprovedStop
    | NothingToAmend | ResourceTaken | UnnamedResource

  /** The issue that a request other than a release names. */
  function Named(op: Operation): int {
    match op
    case ObserveMerge(o) => o.issue
    case ObservePrerequisite(m) => m.seen.issue
    case Release(_, _, _, _, _) => 0
    case _ => op.issue
  }

  ghost predicate IsPending(a: Snapshot) {
    exists pr :: pr in a.supporting && a.supporting[pr].seen.status.Uncertain?
  }

  predicate OtherThan(b: Binding, base: string, head: string, issueUpdatedAt: string) {
    b.base != base || b.head != head || b.issueUpdatedAt != issueUpdatedAt
  }

  /** The assignment as the request would leave it, where the store validates it before it is written. */
  function Outcome(s: State, r: Request): Option<Snapshot> {
    match r.operation
    case ClaimIssue(k, b, o, scope) =>
      Some(Snapshot(k, Owner(o.worker, r.resolved, o.branch), b, scope, map[], Unmerged, Active, None, map[]))
    case Adopt(k, _, o, _) =>
      if k in s.assignments then
        Some(s.assignments[k].now.(owner := Owner(o.worker, r.resolved, o.branch), claim := Active, receipt := None,
                                   evidence := map[]))
      else None
    case Amend(k, _, c, _) =>
      if k in s.assignments then
        var a := s.assignments[k].now;
        Some(a.(evidence := map[],
                scope := Scope(if c.paths.Some? then c.paths.value else a.scope.paths,
                               if c.contracts.Some? then c.contracts.value else a.scope.contracts,
                               if c.checks.Some? then c.checks.value else a.scope.checks,
                               if c.blockers.Some? then c.blockers.value else a.scope.blockers)))
      else None
    case _ => None
  }

  /** Grounds that lie in the assignment that the request names. */
  ghost predicate RefusesOn(s: State, a: Snapshot, r: Request, g: Ground) {
    var op := r.operation;
    match g
    case UnknownField =>
      || (op.ObserveMerge? && op.seen.mergeSha.Some? && !op.seen.status.Merged?)
      || (op.ObservePrerequisite? && op.support.seen.mergeSha.Some? && !op.support.seen.status.Merged?)
    case UnfitObservation =>
      (op.ObserveMerge? && IsBadObservation(op.seen)) || (op.ObservePrerequisite? && IsBadObservation(op.support.seen))
    case OtherBinding =>
      || ((op.Retire? || op.Adopt? || op.Amend? || op.RecordEvidence?)
          && OtherThan(a.binding, op.binding.base, op.binding.head, op.binding.issueUpdatedAt))
      || (op.ObservePrerequisite?
          && OtherThan(a.binding, op.support.base, op.support.seen.head, op.support.issueUpdatedAt))
      || (op.ObserveMerge? && a.binding.head != op.seen.head)
      || (op.Reserve? && a.binding.head != op.head)
    case UnfitBinding =>
      op.Revise? && (!IsSha(op.binding.base) || !IsSha(op.binding.head) || !NonBlank(op.binding.issueUpdatedAt))
    case ClosedToSupport =>
      op.ObservePrerequisite? && (a.claim.Retired? || a.merge.Uncertain? || a.merge.Merged?)
    case UnnamedSupport => op.ObservePrerequisite? && (!NonBlank(op.support.scope) || !NonBlank(op.support.assessment))
    case SupportSettled =>
      && op.ObservePrerequisite? && op.support.seen.pr in a.supporting
      && a.supporting[op.support.seen.pr].seen.status.Merged?
    case SupportRebound =>
      && op.ObservePrerequisite? && op.support.seen.pr in a.supporting
      && var earlier := a.supporting[op.support.seen.pr];
      && earlier.seen.status.Uncertain?
      && (|| earlier.base != op.support.base || earlier.seen.head != op.support.seen.head
          || earlier.issueUpdatedAt != op.support.issueUpdatedAt
          || earlier.scope != op.support.scope || earlier.assessment != op.support.assessment)
    case AnotherSupportPending =>
      && op.ObservePrerequisite? && IsPending(a)
      && !(op.support.seen.pr in a.supporting && a.supporting[op.support.seen.pr].seen.status.Uncertain?)
    case SupportPending => !op.ObservePrerequisite? && IsPending(a)
    case MergedReverted => op.ObserveMerge? && a.merge.Merged? && !op.seen.status.Merged?
    case MergePending => !op.ObservePrerequisite? && !op.ObserveMerge? && a.merge.Uncertain?
    case MergeDone => !op.ObservePrerequisite? && !op.ObserveMerge? && !op.Retire? && a.merge.Merged?
    case ResourcesKept =>
      && (op.Retire? || op.Adopt? || op.Amend? || op.Revise?)
      && exists name :: name in s.resources && s.resources[name].issue == a.issue
    case Inactive => !op.ObservePrerequisite? && !op.ObserveMerge? && !op.Adopt? && a.claim.Retired?
    case UnprovedStop =>
      (op.Retire? || op.Adopt?) && IsUnproved(op.receipt, a.owner, a.binding)
    case NothingToAmend =>
      && op.Amend? && op.changes.paths == None && op.changes.contracts == None
      && op.changes.checks == None && op.changes.blockers == None
    case ResourceTaken => op.Reserve? && op.resource in s.resources
    case UnnamedResource => op.Reserve? && !NonBlank(op.resource)
    case _ => false
  }

  ghost predicate Refuses(s: State, r: Request, g: Ground) {
    var op := r.operation;
    match g
    case NotAllowed => !op.Release? && (Named(op) < 1 || Named(op) !in s.header.allowed)
    case AlreadyAssigned => op.ClaimIssue? && op.issue in s.assignments
    case Unassigned => !op.Release? && !op.ClaimIssue? && Named(op) !in s.assignments
    case NothingReserved => op.Release? && (!NonBlank(op.resource) || op.resource !in s.resources)
    case OtherToken => op.Release? && op.resource in s.resources && op.token != s.resources[op.resource].token
    case UncleanRelease =>
      && op.Release? && op.resource in s.resources
      && (op.cleanup != "verified_clean" || op.head != s.resources[op.resource].head)
    case Unreferenced => (op.Release? || op.Amend?) && !NonBlank(op.reference)
    case UnusableWorktree => (op.ClaimIssue? || op.Adopt?) && !("/" <= op.owner.worktree)
    case FlawedResult(flaw) => Outcome(s, r).Some? && IsFlawed(Outcome(s, r).value, flaw)
    case Collision(j) =>
      && Outcome(s, r).Some? && j in s.assignments && j != Named(op) && s.assignments[j].now.claim != Retired
      && IsClash(Outcome(s, r).value, s.assignments[j].now)
    case _ =>
      !op.Release? && !op.ClaimIssue? && Named(op) in s.assignments && RefusesOn(s, s.assignments[Named(op)].now, r, g)
  }

  // ---------------------------------------------------------------- the grounds are exactly the guards

  lemma OverlapSymmetric(p: string, q: string)
    ensures Overlap(p, q) ==> Overlap(q, p)
  {
    hide Parse, Parents;
  }

  lemma ClashSymmetric(a: Snapshot, b: Snapshot)
    ensures IsClash(a, b) ==> IsClash(b, a)
  {
    hide Overlap;
    if p, q :| p in a.scope.paths && q in b.scope.paths && Overlap(p, q) {
      OverlapSymmetric(p, q);
      assert q in b.scope.paths && p in a.scope.paths && Overlap(q, p);
    }
    if c :| c in a.scope.contracts && c in b.scope.contracts {
      assert c in b.scope.contracts && c in a.scope.contracts;
    }
  }

  /** Among exclusive claims, a new or changed one collides exactly with the occupied ones that it clashes with. */
  lemma CollisionExactly(s: State, k: int, b: Assignment)
    requires Exclusive(s.assignments) && b.now.claim.Active?
    ensures Exclusive(s.assignments[k := b]) <==>
              forall j :: j in s.assignments && j != k && s.assignments[j].now.claim != Retired ==>
                !IsClash(b.now, s.assignments[j].now)
  {
    hide Compatible, IsClash;
    var changed := s.assignments[k := b];
    forall j | j in s.assignments
      ensures Compatible(b.now, s.assignments[j].now) <==> !IsClash(b.now, s.assignments[j].now)
      ensures Compatible(s.assignments[j].now, b.now) <==> !IsClash(b.now, s.assignments[j].now)
    {
      CompatibleExactly(b.now, s.assignments[j].now);
      CompatibleExactly(s.assignments[j].now, b.now);
      ClashSymmetric(b.now, s.assignments[j].now);
      ClashSymmetric(s.assignments[j].now, b.now);
    }
    if Exclusive(changed) {
      assert Occupied(changed, k);
      forall j | j in s.assignments && j != k && s.assignments[j].now.claim != Retired
        ensures !IsClash(b.now, s.assignments[j].now)
      {
        assert Occupied(changed, j);
      }
    } else {
      var i, j :| Occupied(changed, i) && Occupied(changed, j) && i != j && !Compatible(changed[i].now, changed[j].now);
      assert i != k && j != k ==> Occupied(s.assignments, i) && Occupied(s.assignments, j);
    }
  }

  ghost predicate Unrefused(s: State, r: Request) {
    forall g :: !Refuses(s, r, g)
  }

  lemma ReleaseExactly(s: State, r: Request)
    requires r.operation.Release? && ValidResources(s)
    ensures Admits(s, r) <==> Unrefused(s, r)
  {
    hide NonBlank, IsSha, IsResourceName, IsFlawed, IsClash;
    if Unrefused(s, r) {
      assert !Refuses(s, r, NothingReserved) && !Refuses(s, r, OtherToken);
      assert !Refuses(s, r, UncleanRelease) && !Refuses(s, r, Unreferenced);
      assert ValidResource(s, r.operation.resource, s.resources[r.operation.resource]);
    }
  }

  lemma ClaimExactly(s: State, r: Request)
    requires r.operation.ClaimIssue? && Exclusive(s.assignments)
    ensures Admits(s, r) <==> Unrefused(s, r)
  {
    hide ValidSnapshot, IsFlawed, IsClash, Exclusive, NonBlank;
    var k, claimed := r.operation.issue, Claimed(r);
    AbsoluteIsVisible(r.operation.owner.worktree);
    SnapshotExactly(claimed.now);
    CollisionExactly(s, k, claimed);
    assert Outcome(s, r) == Some(claimed.now);
    if Unrefused(s, r) {
      assert !Refuses(s, r, NotAllowed) && !Refuses(s, r, AlreadyAssigned) && !Refuses(s, r, UnusableWorktree);
      forall flaw ensures !IsFlawed(claimed.now, flaw) { assert !Refuses(s, r, FlawedResult(flaw)); }
      forall j | j in s.assignments && j != k && s.assignments[j].now.claim != Retired
        ensures !IsClash(claimed.now, s.assignments[j].now)
      {
        assert !Refuses(s, r, Collision(j));
      }
    }
  }

  /** The grounds of an operation on an assigned issue are those that lie in its assignment and in its outcome. */
  lemma OnAssigned(s: State, r: Request)
    requires !r.operation.Release? && !r.operation.ClaimIssue?
    requires Named(r.operation) in s.assignments && InScope(s, Named(r.operation))
    ensures Unrefused(s, r) <==>
              && Undisputed(s, s.assignments[Named(r.operation)].now, r)
              && !(r.operation.Amend? && !NonBlank(r.operation.reference))
              && !(r.operation.Adopt? && !("/" <= r.operation.owner.worktree))
              && (forall flaw :: !Refuses(s, r, FlawedResult(flaw))) && (forall j :: !Refuses(s, r, Collision(j)))
  {
    hide RefusesOn, IsFlawed, IsClash, NonBlank;
    var a := s.assignments[Named(r.operation)].now;
    if Unrefused(s, r) {
      assert !Refuses(s, r, Unreferenced) && !Refuses(s, r, UnusableWorktree);
      forall g ensures !RefusesOn(s, a, r, g) {
        assert !Refuses(s, r, g);
        AssignmentGrounds(s, a, r, g);
      }
    }
  }

  lemma AssignmentGrounds(s: State, a: Snapshot, r: Request, g: Ground)
    ensures RefusesOn(s, a, r, g) ==>
              !g.NotAllowed? && !g.AlreadyAssigned? && !g.Unassigned? && !g.NothingReserved? && !g.OtherToken?
              && !g.UncleanRelease? && !g.Unreferenced? && !g.UnusableWorktree? && !g.FlawedResult? && !g.Collision?
  {
    hide IsBadObservation, IsUnproved, NonBlank, IsSha, IsPending;
  }

  ghost predicate Clear(s: State, k: int, r: Request, g: Ground)
    requires k in s.assignments
  {
    !RefusesOn(s, s.assignments[k].now, r, g)
  }

  /** None of the grounds that lie in the assignment. */
  ghost predicate Undisputed(s: State, a: Snapshot, r: Request) {
    forall g :: !RefusesOn(s, a, r, g)
  }

  lemma MergeGrounds(s: State, k: int, r: Request, g: Ground)
    requires k in s.assignments && r.operation.ObserveMerge? && AdmitsOn(s, k, r)
    ensures !RefusesOn(s, s.assignments[k].now, r, g)
  {
    hide ValidObservation, IsBadObservation, NonBlank, IsSha, Exclusive, ValidSnapshot;
    ObservationExactly(r.operation.seen);
  }

  lemma MergeSuffices(s: State, k: int, r: Request)
    requires k in s.assignments && r.operation.ObserveMerge?
    requires Clear(s, k, r, UnknownField) && Clear(s, k, r, UnfitObservation) && Clear(s, k, r, OtherBinding)
    requires Clear(s, k, r, SupportPending) && Clear(s, k, r, MergedReverted)
    ensures AdmitsOn(s, k, r)
  {
    hide ValidObservation, IsBadObservation, NonBlank, IsSha, Exclusive, ValidSnapshot;
    ObservationExactly(r.operation.seen);
  }

  lemma SupportGrounds(s: State, k: int, r: Request, g: Ground)
    requires k in s.assignments && r.operation.ObservePrerequisite? && AdmitsOn(s, k, r)
    ensures !RefusesOn(s, s.assignments[k].now, r, g)
  {
    hide ValidObservation, IsBadObservation, NonBlank, IsSha, Exclusive, ValidSnapshot;
    ObservationExactly(r.operation.support.seen);
  }

  lemma SupportSuffices(s: State, k: int, r: Request)
    requires k in s.assignments && r.operation.ObservePrerequisite?
    requires Clear(s, k, r, UnknownField) && Clear(s, k, r, UnfitObservation) && Clear(s, k, r, OtherBinding)
    requires Clear(s, k, r, ClosedToSupport) && Clear(s, k, r, UnnamedSupport) && Clear(s, k, r, SupportSettled)
    requires Clear(s, k, r, SupportRebound) && Clear(s, k, r, AnotherSupportPending)
    ensures AdmitsOn(s, k, r)
  {
    hide ValidObservation, IsBadObservation, NonBlank, IsSha, Exclusive, ValidSnapshot;
    ObservationExactly(r.operation.support.seen);
  }

  lemma RetireGrounds(s: State, k: int, r: Request, g: Ground)
    requires k in s.assignments && s.assignments[k].now.issue == k && r.operation.Retire? && AdmitsOn(s, k, r)
    ensures !RefusesOn(s, s.assignments[k].now, r, g)
  {
    hide Stops, IsUnproved, NonBlank, IsSha, Exclusive, ValidSnapshot;
    StopsExactly(r.operation.receipt, s.assignments[k].now);
  }

  lemma RetireSuffices(s: State, k: int, r: Request)
    requires k in s.assignments && s.assignments[k].now.issue == k && r.operation.Retire?
    requires Clear(s, k, r, OtherBinding) && Clear(s, k, r, SupportPending) && Clear(s, k, r, MergePending)
    requires Clear(s, k, r, ResourcesKept) && Clear(s, k, r, Inactive) && Clear(s, k, r, UnprovedStop)
    ensures AdmitsOn(s, k, r)
  {
    hide Stops, IsUnproved, NonBlank, IsSha, Exclusive, ValidSnapshot;
    StopsExactly(r.operation.receipt, s.assignments[k].now);
  }

  lemma ReviseGrounds(s: State, k: int, r: Request, g: Ground)
    requires k in s.assignments && s.assignments[k].now.issue == k && r.operation.Revise? && AdmitsOn(s, k, r)
    ensures !RefusesOn(s, s.assignments[k].now, r, g)
  {
    hide NonBlank, IsSha, Exclusive, ValidSnapshot;
  }

  lemma ReviseSuffices(s: State, k: int, r: Request)
    requires k in s.assignments && s.assignments[k].now.issue == k && r.operation.Revise?
    requires Clear(s, k, r, SupportPending) && Clear(s, k, r, MergePending) && Clear(s, k, r, MergeDone)
    requires Clear(s, k, r, ResourcesKept) && Clear(s, k, r, Inactive) && Clear(s, k, r, UnfitBinding)
    ensures AdmitsOn(s, k, r)
  {
    hide NonBlank, IsSha, Exclusive, ValidSnapshot;
  }

  lemma RecordingGrounds(s: State, k: int, r: Request, g: Ground)
    requires k in s.assignments && r.operation.RecordEvidence? && AdmitsOn(s, k, r)
    ensures !RefusesOn(s, s.assignments[k].now, r, g)
  {
    hide NonBlank, IsSha, Exclusive, ValidSnapshot;
  }

  lemma RecordingSuffices(s: State, k: int, r: Request)
    requires k in s.assignments && r.operation.RecordEvidence?
    requires Clear(s, k, r, OtherBinding) && Clear(s, k, r, SupportPending) && Clear(s, k, r, MergePending)
    requires Clear(s, k, r, MergeDone) && Clear(s, k, r, Inactive)
    ensures AdmitsOn(s, k, r)
  {
    hide NonBlank, IsSha, Exclusive, ValidSnapshot;
  }

  lemma ReserveGrounds(s: State, k: int, r: Request, g: Ground)
    requires k in s.assignments && r.operation.Reserve? && AdmitsOn(s, k, r)
    ensures !RefusesOn(s, s.assignments[k].now, r, g)
  {
    hide NonBlank, IsSha, Exclusive, ValidSnapshot;
  }

  lemma ReserveSuffices(s: State, k: int, r: Request)
    requires k in s.assignments && r.operation.Reserve?
    requires Clear(s, k, r, OtherBinding) && Clear(s, k, r, SupportPending) && Clear(s, k, r, MergePending)
    requires Clear(s, k, r, MergeDone) && Clear(s, k, r, Inactive) && Clear(s, k, r, ResourceTaken)
    requires Clear(s, k, r, UnnamedResource)
    ensures AdmitsOn(s, k, r)
  {
    hide NonBlank, IsSha, Exclusive, ValidSnapshot;
  }

  /** The operations whose outcome is not validated before it is written. */
  lemma PlainAdmitted(s: State, k: int, r: Request)
    requires k in s.assignments && s.assignments[k].now.issue == k
    requires var op := r.operation;
             || op.ObserveMerge? || op.ObservePrerequisite? || op.Retire? || op.Revise?
             || op.RecordEvidence? || op.Reserve?
    ensures AdmitsOn(s, k, r) <==> Undisputed(s, s.assignments[k].now, r)
  {
    hide AdmitsOn, RefusesOn;
    if Undisputed(s, s.assignments[k].now, r) {
      match r.operation
      case ObserveMerge(_) => MergeSuffices(s, k, r);
      case ObservePrerequisite(_) => SupportSuffices(s, k, r);
      case Retire(_, _, _) => RetireSuffices(s, k, r);
      case Revise(_, _) => ReviseSuffices(s, k, r);
      case RecordEvidence(_, _, _) => RecordingSuffices(s, k, r);
      case Reserve(_, _, _, _, _, _) => ReserveSuffices(s, k, r);
    }
    forall g | AdmitsOn(s, k, r)
      ensures !RefusesOn(s, s.assignments[k].now, r, g)
    {
      match r.operation
      case ObserveMerge(_) => MergeGrounds(s, k, r, g);
      case ObservePrerequisite(_) => SupportGrounds(s, k, r, g);
      case Retire(_, _, _) => RetireGrounds(s, k, r, g);
      case Revise(_, _) => ReviseGrounds(s, k, r, g);
      case RecordEvidence(_, _, _) => RecordingGrounds(s, k, r, g);
      case Reserve(_, _, _, _, _, _) => ReserveGrounds(s, k, r, g);
    }
  }

  /** What adopting and amending take besides: a flawless outcome that collides with no other claim. */
  ghost predicate OutcomeFits(s: State, k: int, b: Snapshot) {
    && (forall flaw :: !IsFlawed(b, flaw))
    && (forall j :: j in s.assignments && j != k && s.assignments[j].now.claim != Retired ==>
          !IsClash(b, s.assignments[j].now))
  }

  lemma OutcomeFitsExactly(s: State, k: int, b: Snapshot)
    requires Exclusive(s.assignments) && b.claim.Active?
    ensures OutcomeFits(s, k, b) <==> ValidSnapshot(b) && Exclusive(s.assignments[k := Assignment(b, [])])
  {
    hide ValidSnapshot, IsFlawed, IsClash, Exclusive;
    SnapshotExactly(b);
    CollisionExactly(s, k, Assignment(b, []));
  }

  lemma AdoptGrounds(s: State, k: int, r: Request, g: Ground)
    requires k in s.assignments && s.assignments[k].now.issue == k && r.operation.Adopt? && AdmitsOn(s, k, r)
    ensures !RefusesOn(s, s.assignments[k].now, r, g)
  {
    hide Stops, IsUnproved, NonBlank, IsSha, Exclusive, ValidSnapshot;
    StopsExactly(r.operation.receipt, s.assignments[k].now);
    AbsoluteIsVisible(r.operation.owner.worktree);
  }

  lemma AdoptSuffices(s: State, k: int, r: Request)
    requires k in s.assignments && s.assignments[k].now.issue == k && r.operation.Adopt?
    requires Clear(s, k, r, OtherBinding) && Clear(s, k, r, SupportPending) && Clear(s, k, r, MergePending)
    requires Clear(s, k, r, MergeDone) && Clear(s, k, r, ResourcesKept) && Clear(s, k, r, UnprovedStop)
    requires "/" <= r.operation.owner.worktree && Exclusive(s.assignments)
    requires OutcomeFits(s, k, Local(s.assignments[k].now, r))
    ensures AdmitsOn(s, k, r)
  {
    hide Stops, IsUnproved, NonBlank, IsSha, Exclusive, ValidSnapshot, OutcomeFits;
    StopsExactly(r.operation.receipt, s.assignments[k].now);
    AbsoluteIsVisible(r.operation.owner.worktree);
    OutcomeFitsExactly(s, k, Local(s.assignments[k].now, r));
  }

  lemma AdoptFits(s: State, k: int, r: Request)
    requires k in s.assignments && s.assignments[k].now.issue == k && r.operation.Adopt?
    requires Exclusive(s.assignments) && AdmitsOn(s, k, r)
    ensures "/" <= r.operation.owner.worktree && OutcomeFits(s, k, Local(s.assignments[k].now, r))
  {
    hide Stops, IsUnproved, NonBlank, IsSha, Exclusive, ValidSnapshot, OutcomeFits;
    AbsoluteIsVisible(r.operation.owner.worktree);
    OutcomeFitsExactly(s, k, Local(s.assignments[k].now, r));
  }

  lemma AdoptAdmitted(s: State, k: int, r: Request)
    requires k in s.assignments && s.assignments[k].now.issue == k && r.operation.Adopt? && Exclusive(s.assignments)
    ensures AdmitsOn(s, k, r) <==>
              && Undisputed(s, s.assignments[k].now, r) && "/" <= r.operation.owner.worktree
              && OutcomeFits(s, k, Local(s.assignments[k].now, r))
  {
    hide AdmitsOn, RefusesOn, Exclusive, OutcomeFits, Local, NonBlank;
    if Undisputed(s, s.assignments[k].now, r) && "/" <= r.operation.owner.worktree
       && OutcomeFits(s, k, Local(s.assignments[k].now, r))
    {
      AdoptSuffices(s, k, r);
    }
    if AdmitsOn(s, k, r) {
      AdoptFits(s, k, r);
      forall g {
        AdoptGrounds(s, k, r, g);
      }
    }
  }

  lemma AmendGrounds(s: State, k: int, r: Request, g: Ground)
    requires k in s.assignments && s.assignments[k].now.issue == k && r.operation.Amend? && AdmitsOn(s, k, r)
    ensures !RefusesOn(s, s.assignments[k].now, r, g)
  {
    hide NonBlank, IsSha, Exclusive, ValidSnapshot;
  }

  lemma AmendSuffices(s: State, k: int, r: Request)
    requires k in s.assignments && s.assignments[k].now.issue == k && r.operation.Amend?
    requires Clear(s, k, r, OtherBinding) && Clear(s, k, r, SupportPending) && Clear(s, k, r, MergePending)
    requires Clear(s, k, r, MergeDone) && Clear(s, k, r, ResourcesKept) && Clear(s, k, r, Inactive)
    requires Clear(s, k, r, NothingToAmend)
    requires NonBlank(r.operation.reference) && Exclusive(s.assignments)
    requires OutcomeFits(s, k, Local(s.assignments[k].now, r))
    ensures AdmitsOn(s, k, r)
  {
    hide NonBlank, IsSha, Exclusive, ValidSnapshot, OutcomeFits;
    OutcomeFitsExactly(s, k, Local(s.assignments[k].now, r));
  }

  lemma AmendFits(s: State, k: int, r: Request)
    requires k in s.assignments && s.assignments[k].now.issue == k && r.operation.Amend?
    requires Exclusive(s.assignments) && AdmitsOn(s, k, r)
    ensures NonBlank(r.operation.reference) && OutcomeFits(s, k, Local(s.assignments[k].now, r))
  {
    hide NonBlank, IsSha, Exclusive, ValidSnapshot, OutcomeFits;
    OutcomeFitsExactly(s, k, Local(s.assignments[k].now, r));
  }

  lemma AmendAdmitted(s: State, k: int, r: Request)
    requires k in s.assignments && s.assignments[k].now.issue == k && r.operation.Amend? && Exclusive(s.assignments)
    ensures AdmitsOn(s, k, r) <==>
              && Undisputed(s, s.assignments[k].now, r) && NonBlank(r.operation.reference)
              && OutcomeFits(s, k, Local(s.assignments[k].now, r))
  {
    hide AdmitsOn, RefusesOn, Exclusive, OutcomeFits, Local, NonBlank;
    if Undisputed(s, s.assignments[k].now, r) && NonBlank(r.operation.reference)
       && OutcomeFits(s, k, Local(s.assignments[k].now, r))
    {
      AmendSuffices(s, k, r);
    }
    if AdmitsOn(s, k, r) {
      AmendFits(s, k, r);
      forall g {
        AmendGrounds(s, k, r, g);
      }
    }
  }

  /** The outcome's grounds, for a request on an assigned issue. */
  lemma OutcomeGrounds(s: State, r: Request)
    requires Outcome(s, r).Some?
    ensures OutcomeFits(s, Named(r.operation), Outcome(s, r).value) <==>
              (forall flaw :: !Refuses(s, r, FlawedResult(flaw))) && forall j :: !Refuses(s, r, Collision(j))
  {
    hide IsFlawed, IsClash, Outcome;
    var b := Outcome(s, r).value;
    forall flaw ensures Refuses(s, r, FlawedResult(flaw)) <==> IsFlawed(b, flaw) {}
    if forall j :: !Refuses(s, r, Collision(j)) {
      assert forall j :: j in s.assignments ==> !Refuses(s, r, Collision(j));
    }
  }

  lemma OutcomeExactly(s: State, r: Request)
    requires Named(r.operation) in s.assignments
    ensures Outcome(s, r) == if r.operation.Adopt? || r.operation.Amend?
                             then Some(Local(s.assignments[Named(r.operation)].now, r))
                             else if r.operation.ClaimIssue? then Some(Claimed(r).now) else None
  {
  }

  lemma NoOutcome(s: State, r: Request)
    requires Outcome(s, r) == None
    ensures (forall flaw :: !Refuses(s, r, FlawedResult(flaw))) && forall j :: !Refuses(s, r, Collision(j))
  {
  }

  /** A valid record's store lets a request through exactly if it has none of these grounds to refuse it. */
  lemma AdmittedExactly(s: State, r: Request)
    requires ValidState(s)
    ensures Admits(s, r) <==> Unrefused(s, r)
  {
    hide Unrefused, AdmitsOn, RefusesOn, Undisputed, OutcomeFits, Outcome, NonBlank, Exclusive, ValidResources,
         ValidObservations, ValidHeader, Refuses, Local, ValidSnapshot;
    var op, k := r.operation, Named(r.operation);
    if op.Release? {
      ReleaseExactly(s, r);
    } else if op.ClaimIssue? {
      ClaimExactly(s, r);
    } else if !InScope(s, k) || k !in s.assignments {
      NotNamed(s, r);
    } else {
      assert ValidAssignment(s.assignments[k]);
      OnAssigned(s, r);
      OutcomeExactly(s, r);
      if Outcome(s, r).Some? {
        OutcomeGrounds(s, r);
      } else {
        NoOutcome(s, r);
      }
      match op
      case Adopt(_, _, _, _) => AdoptAdmitted(s, k, r);
      case Amend(_, _, _, _) => AmendAdmitted(s, k, r);
      case _ => PlainAdmitted(s, k, r);
    }
  }

  lemma NotNamed(s: State, r: Request)
    requires !r.operation.Release? && !r.operation.ClaimIssue?
    requires !InScope(s, Named(r.operation)) || Named(r.operation) !in s.assignments
    ensures !Unrefused(s, r)
  {
    assert Refuses(s, r, if InScope(s, Named(r.operation)) then Unassigned else NotAllowed);
  }
}
