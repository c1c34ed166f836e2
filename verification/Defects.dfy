/** What makes a record invalid: each way in which it can be defective, told from its own fields. */
module Defects {
  import opened Text
  import opened RepoPaths
  import opened Coordination

  // ---------------------------------------------------------------- one assignment

  datatype Flaw =
    | BadIssue | BadWorker | BadWorktree | BadBranch
    | NoPaths | BadPath | RepeatedPath | BadContract | RepeatedContract | NoChecks | BadCheck | RepeatedCheck
    | BadBase | BadHead | BadIssueRevision
    | BadSupport | MisfiledSupport | BadMergeState | RetiredUncertain | RetiredUnproved

  /** An observation that GitHub cannot have given for a pull request of this repository. */
  ghost predicate IsBadObservation(o: Observation) {
    || o.status.Unmerged? || o.status.Unknown?
    || o.source != "github"
    || o.pr < 1
    || o.reference != "https://github.com/" + "matejpalenik/inframeld" + "/pull/" + Decimal(o.pr)
    || !IsSha(o.head)
    || !NonBlank(o.observedAt)
    || (o.status.Merged? && (o.mergeSha == None || !IsSha(o.mergeSha.value)))
  }

  ghost predicate IsBadSupport(m: Supporting) {
    || IsBadObservation(m.seen)
    || !IsSha(m.base) || !NonBlank(m.issueUpdatedAt)
    || !NonBlank(m.scope) || !NonBlank(m.assessment)
  }

  /** A receipt that does not prove that this owner stopped and was cleaned up under this binding. */
  ghost predicate IsUnproved(r: Receipt, owner: Owner, binding: Binding) {
    || r.owner.worker != owner.worker || r.owner.worktree != owner.worktree || r.owner.branch != owner.branch
    || r.binding.base != binding.base || r.binding.head != binding.head
    || r.binding.issueUpdatedAt != binding.issueUpdatedAt
    || !r.stopped || r.cleanup != "verified_clean" || !r.verified || !NonBlank(r.reference)
  }

  ghost predicate Repeats(texts: seq<string>) {
    exists i, j :: 0 <= i < j < |texts| && texts[i] == texts[j]
  }

  ghost predicate IsFlawed(a: Snapshot, flaw: Flaw) {
    match flaw
    case BadIssue => a.issue < 1
    case BadWorker => !NonBlank(a.owner.worker)
    case BadWorktree => !("/" <= a.owner.worktree)
    case BadBranch => !NonBlank(a.owner.branch)
    case NoPaths => a.scope.paths == []
    case BadPath => exists p :: p in a.scope.paths && !IsClaimPath(p)
    case RepeatedPath => Repeats(a.scope.paths)
    case BadContract => exists c :: c in a.scope.contracts && !NonBlank(c)
    case RepeatedContract => Repeats(a.scope.contracts)
    case NoChecks => a.scope.checks == []
    case BadCheck => exists c :: c in a.scope.checks && !NonBlank(c)
    case RepeatedCheck => Repeats(a.scope.checks)
    case BadBase => !IsSha(a.binding.base)
    case BadHead => !IsSha(a.binding.head)
    case BadIssueRevision => !NonBlank(a.binding.issueUpdatedAt)
    case BadSupport => exists pr :: pr in a.supporting && IsBadSupport(a.supporting[pr])
    case MisfiledSupport =>
      exists pr :: pr in a.supporting && (a.supporting[pr].seen.pr != pr || a.supporting[pr].seen.issue != a.issue)
    case BadMergeState => a.merge.Unknown?
    case RetiredUncertain =>
      && a.claim.Retired?
      && (a.merge.Uncertain? || exists pr :: pr in a.supporting && a.supporting[pr].seen.status.Uncertain?)
    case RetiredUnproved =>
      a.claim.Retired? && (a.receipt == None || IsUnproved(a.receipt.value, a.owner, a.binding))
  }

  lemma ObservationExactly(o: Observation)
    ensures ValidObservation(o) <==> !IsBadObservation(o)
  {
    hide IsSha, NonBlank, Decimal;
  }

  lemma SupportExactly(m: Supporting)
    ensures ValidSupporting(m) <==> !IsBadSupport(m)
  {
    hide IsSha, NonBlank, PullUrl, Decimal;
    ObservationExactly(m.seen);
  }

  lemma StopsExactly(r: Receipt, a: Snapshot)
    ensures Stops(r, a) <==> !IsUnproved(r, a.owner, a.binding)
  {
    hide NonBlank;
  }

  /** An absolute path is not blank. */
  lemma AbsoluteIsVisible(path: string)
    ensures IsAbsolute(path) ==> NonBlank(path)
  {
    if IsAbsolute(path) {
      assert path[0] == '/' && !IsSpace('/');
    }
  }

  lemma RepeatsExactly(texts: seq<string>)
    ensures IsDistinct(texts) <==> !Repeats(texts)
  {
  }

  lemma ScopeExactly(a: Snapshot)
    ensures ValidScope(a.scope) <==>
              && !IsFlawed(a, NoPaths) && !IsFlawed(a, BadPath) && !IsFlawed(a, RepeatedPath)
              && !IsFlawed(a, BadContract) && !IsFlawed(a, RepeatedContract)
              && !IsFlawed(a, NoChecks) && !IsFlawed(a, BadCheck) && !IsFlawed(a, RepeatedCheck)
  {
    hide NonBlank, IsClaimPath, Repeats, Distinct;
    RepeatsExactly(a.scope.paths);
    RepeatsExactly(a.scope.contracts);
    RepeatsExactly(a.scope.checks);
  }

  lemma SupportsExactly(a: Snapshot)
    ensures (forall pr :: pr in a.supporting ==>
               && ValidSupporting(a.supporting[pr]) && pr == a.supporting[pr].seen.pr
               && a.supporting[pr].seen.issue == a.issue) <==>
            !IsFlawed(a, BadSupport) && !IsFlawed(a, MisfiledSupport)
  {
    hide ValidSupporting, IsBadSupport;
    forall pr | pr in a.supporting
      ensures ValidSupporting(a.supporting[pr]) <==> !IsBadSupport(a.supporting[pr])
    {
      SupportExactly(a.supporting[pr]);
    }
  }

  lemma TermsExactly(a: Snapshot)
    ensures a.issue >= 1 && ValidOwner(a.owner) && ValidBinding(a.binding) && !a.merge.Unknown? <==>
              && !IsFlawed(a, BadIssue) && !IsFlawed(a, BadWorker) && !IsFlawed(a, BadWorktree)
              && !IsFlawed(a, BadBranch) && !IsFlawed(a, BadBase) && !IsFlawed(a, BadHead)
              && !IsFlawed(a, BadIssueRevision) && !IsFlawed(a, BadMergeState)
  {
    hide NonBlank, IsSha;
    AbsoluteIsVisible(a.owner.worktree);
  }

  lemma RetirementExactly(a: Snapshot)
    ensures (a.claim.Retired? ==>
               && !a.merge.Uncertain? && !SupportUncertain(a)
               && a.receipt.Some? && Stops(a.receipt.value, a)) <==>
            !IsFlawed(a, RetiredUncertain) && !IsFlawed(a, RetiredUnproved)
  {
    hide Stops, IsUnproved;
    if a.receipt.Some? {
      StopsExactly(a.receipt.value, a);
    }
  }

  /** An assignment's fields are valid exactly if they have none of these flaws. */
  lemma SnapshotExactly(a: Snapshot)
    ensures ValidSnapshot(a) <==> forall flaw :: !IsFlawed(a, flaw)
  {
    hide IsFlawed, ValidOwner, ValidBinding, ValidScope, ValidSupporting, Stops, SupportUncertain;
    ScopeExactly(a);
    SupportsExactly(a);
    TermsExactly(a);
    RetirementExactly(a);
    forall flaw | ValidSnapshot(a)
      ensures !IsFlawed(a, flaw)
    {
      assert AnyFlaw(flaw);
    }
  }

  predicate AnyFlaw(flaw: Flaw) {
    || flaw.BadIssue? || flaw.BadWorker? || flaw.BadWorktree? || flaw.BadBranch?
    || flaw.NoPaths? || flaw.BadPath? || flaw.RepeatedPath? || flaw.BadContract? || flaw.RepeatedContract?
    || flaw.NoChecks? || flaw.BadCheck? || flaw.RepeatedCheck?
    || flaw.BadBase? || flaw.BadHead? || flaw.BadIssueRevision?
    || flaw.BadSupport? || flaw.MisfiledSupport? || flaw.BadMergeState?
    || flaw.RetiredUncertain? || flaw.RetiredUnproved?
  }

  // ---------------------------------------------------------------- the whole record

  datatype Defect =
    | BadSchema | BadRevision | BadRepository | BadMilestone | BadMode | BadRunId | BadCoordinator | BadAuthorization
    | BadAllowed
    | FlawedAssignment(issue: int, flaw: Flaw) | BadHistory(issue: int) | EarlySupport(issue: int)
    | Misfiled(issue: int) | OutOfScope(issue: int) | Clash(first: int, second: int)
    | BadName(resource: string) | BadHolder(resource: string) | BadReservation(resource: string)
    | StrayObservation(issue: int) | BadObservation(issue: int) | OtherState(issue: int) | OtherHead(issue: int)
    | MissingObservation(issue: int)

  /** Two owners, scopes or both get in each other's way. */
  ghost predicate IsClash(a: Snapshot, b: Snapshot) {
    || a.owner.worker == b.owner.worker || a.owner.worktree == b.owner.worktree || a.owner.branch == b.owner.branch
    || (exists p, q :: p in a.scope.paths && q in b.scope.paths && Overlap(p, q))
    || (exists c :: c in a.scope.contracts && c in b.scope.contracts)
  }

  ghost predicate HasDefect(s: State, d: Defect) {
    match d
    case BadSchema => s.schema != 1 && s.schema != 2
    case BadRevision => s.revision < 0
    case BadRepository => s.header.repository != "matejpalenik/inframeld"
    case BadMilestone => s.header.milestone != 1
    case BadMode => s.header.mode != "live" && s.header.mode != "rehearsal"
    case BadRunId => !NonBlank(s.header.runId)
    case BadCoordinator => !NonBlank(s.header.coordinator)
    case BadAuthorization => !NonBlank(s.header.authorization)
    case BadAllowed =>
      || s.header.allowed == []
      || (exists n :: n in s.header.allowed && n < 1)
      || (exists i, j :: 0 <= i < j < |s.header.allowed| && s.header.allowed[i] == s.header.allowed[j])
    case FlawedAssignment(k, flaw) => k in s.assignments && IsFlawed(s.assignments[k].now, flaw)
    case BadHistory(k) => k in s.assignments && exists e :: e in s.assignments[k].history && e.revision < 1
    case EarlySupport(k) => k in s.assignments && s.schema == 1 && s.assignments[k].now.supporting != map[]
    case Misfiled(k) => k in s.assignments && s.assignments[k].now.issue != k
    case OutOfScope(k) => k in s.assignments && k !in s.header.allowed
    case Clash(j, k) =>
      && j in s.assignments && k in s.assignments && j != k
      && s.assignments[j].now.claim != Retired && s.assignments[k].now.claim != Retired
      && IsClash(s.assignments[j].now, s.assignments[k].now)
    case BadName(name) => name in s.resources && !IsResourceName(name)
    case BadHolder(name) =>
      && name in s.resources
      && var k := s.resources[name].issue;
         k < 1 || k !in s.assignments || s.assignments[k].now.claim == Retired
    case BadReservation(name) =>
      && name in s.resources
      && var held := s.resources[name];
         !NonBlank(held.token) || !NonBlank(held.operation) || !NonBlank(held.reference) || !IsSha(held.head)
    case StrayObservation(k) => k in s.observations && k !in s.assignments
    case BadObservation(k) => k in s.observations && IsBadObservation(s.observations[k])
    case OtherState(k) =>
      k in s.observations && k in s.assignments && s.observations[k].status != s.assignments[k].now.merge
    case OtherHead(k) =>
      k in s.observations && k in s.assignments && s.observations[k].head != s.assignments[k].now.binding.head
    case MissingObservation(k) =>
      k in s.assignments && k !in s.observations && s.assignments[k].now.merge != Unmerged
  }

  lemma HeaderExactly(s: State)
    ensures s.schema in {1, 2} && s.revision >= 0 && ValidHeader(s.header) <==>
              && !HasDefect(s, BadSchema) && !HasDefect(s, BadRevision) && !HasDefect(s, BadRepository)
              && !HasDefect(s, BadMilestone) && !HasDefect(s, BadMode) && !HasDefect(s, BadRunId)
              && !HasDefect(s, BadCoordinator) && !HasDefect(s, BadAuthorization) && !HasDefect(s, BadAllowed)
  {
    hide NonBlank;
  }

  ghost predicate SoundAssignment(s: State, k: int) {
    && (forall flaw :: !HasDefect(s, FlawedAssignment(k, flaw)))
    && !HasDefect(s, BadHistory(k)) && !HasDefect(s, EarlySupport(k))
    && !HasDefect(s, Misfiled(k)) && !HasDefect(s, OutOfScope(k))
  }

  lemma AssignmentExactly(s: State, k: int)
    ensures SoundAssignment(s, k) <==>
              (k in s.assignments ==>
                 && ValidAssignment(s.assignments[k])
                 && (s.schema == 1 ==> s.assignments[k].now.supporting == map[])
                 && k == s.assignments[k].now.issue && k in s.header.allowed)
  {
    hide ValidSnapshot, IsFlawed;
    if k in s.assignments {
      SnapshotExactly(s.assignments[k].now);
      forall flaw
        ensures HasDefect(s, FlawedAssignment(k, flaw)) <==> IsFlawed(s.assignments[k].now, flaw)
      {
      }
    }
  }

  lemma AssignmentsExactly(s: State)
    ensures ValidAssignments(s) <==> forall k :: SoundAssignment(s, k)
  {
    hide SoundAssignment, ValidAssignment;
    forall k {
      AssignmentExactly(s, k);
    }
    if forall k :: SoundAssignment(s, k) {
      assert forall k :: k in s.assignments ==> SoundAssignment(s, k);
    }
  }

  lemma CompatibleExactly(a: Snapshot, b: Snapshot)
    ensures Compatible(a, b) <==> !IsClash(a, b)
  {
  }

  lemma ExclusiveExactly(s: State)
    ensures Exclusive(s.assignments) <==> forall j, k :: !HasDefect(s, Clash(j, k))
  {
    hide Compatible, IsClash;
    forall j, k | Occupied(s.assignments, j) && Occupied(s.assignments, k) && j != k
      ensures Compatible(s.assignments[j].now, s.assignments[k].now) <==> !HasDefect(s, Clash(j, k))
    {
      CompatibleExactly(s.assignments[j].now, s.assignments[k].now);
    }
    forall j, k | HasDefect(s, Clash(j, k))
      ensures Occupied(s.assignments, j) && Occupied(s.assignments, k) && j != k
    {
    }
  }

  ghost predicate SoundResource(s: State, name: string) {
    !HasDefect(s, BadName(name)) && !HasDefect(s, BadHolder(name)) && !HasDefect(s, BadReservation(name))
  }

  lemma ResourceExactly(s: State, name: string)
    ensures SoundResource(s, name) <==> (name in s.resources ==> ValidResource(s, name, s.resources[name]))
  {
    hide NonBlank, IsSha, IsResourceName;
  }

  lemma ResourcesExactly(s: State)
    ensures ValidResources(s) <==> forall name :: SoundResource(s, name)
  {
    hide SoundResource, ValidResource;
    forall name {
      ResourceExactly(s, name);
    }
    if forall name :: SoundResource(s, name) {
      assert forall name :: name in s.resources ==> SoundResource(s, name);
    }
  }

  ghost predicate SoundObservation(s: State, k: int) {
    && !HasDefect(s, StrayObservation(k)) && !HasDefect(s, BadObservation(k))
    && !HasDefect(s, OtherState(k)) && !HasDefect(s, OtherHead(k)) && !HasDefect(s, MissingObservation(k))
  }

  lemma ObservedExactly(s: State, k: int)
    requires k in s.observations
    ensures SoundObservation(s, k) <==>
              && k in s.assignments && ValidObservation(s.observations[k])
              && s.observations[k].status == s.assignments[k].now.merge
              && s.observations[k].head == s.assignments[k].now.binding.head
  {
    hide ValidObservation, IsBadObservation;
    ObservationExactly(s.observations[k]);
  }

  lemma UnobservedExactly(s: State, k: int)
    requires k !in s.observations
    ensures SoundObservation(s, k) <==> (k in s.assignments ==> s.assignments[k].now.merge.Unmerged?)
  {
    hide ValidObservation, IsBadObservation;
  }

  lemma ObservationsExactly(s: State)
    ensures ValidObservations(s) <==> forall k :: SoundObservation(s, k)
  {
    hide SoundObservation, ValidObservation;
    forall k | k in s.observations {
      ObservedExactly(s, k);
    }
    forall k | k !in s.observations {
      UnobservedExactly(s, k);
    }
    if forall k :: SoundObservation(s, k) {
      assert forall k :: k in s.observations || k in s.assignments ==> SoundObservation(s, k);
    }
  }

  /** A record is valid exactly if it has none of these defects. */
  lemma ValidExactly(s: State)
    ensures ValidState(s) <==> forall d :: !HasDefect(s, d)
  {
    hide HasDefect, ValidHeader, ValidAssignments, Exclusive, ValidResources, ValidObservations;
    HeaderExactly(s);
    AssignmentsExactly(s);
    ExclusiveExactly(s);
    ResourcesExactly(s);
    ObservationsExactly(s);
    forall d | ValidState(s)
      ensures !HasDefect(s, d)
    {
      match d
      case FlawedAssignment(k, flaw) => assert SoundAssignment(s, k);
      case BadHistory(k) => assert SoundAssignment(s, k);
      case EarlySupport(k) => assert SoundAssignment(s, k);
      case Misfiled(k) => assert SoundAssignment(s, k);
      case OutOfScope(k) => assert SoundAssignment(s, k);
      case BadName(name) => assert SoundResource(s, name);
      case BadHolder(name) => assert SoundResource(s, name);
      case BadReservation(name) => assert SoundResource(s, name);
      case StrayObservation(k) => assert SoundObservation(s, k);
      case BadObservation(k) => assert SoundObservation(s, k);
      case OtherState(k) => assert SoundObservation(s, k);
      case OtherHead(k) => assert SoundObservation(s, k);
      case MissingObservation(k) => assert SoundObservation(s, k);
      case _ =>
    }
  }
}
