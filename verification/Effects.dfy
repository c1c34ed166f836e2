/** What every field of the record holds: what the last request that writes it has written there. */
module Effects {
  import opened Text
  import opened Json
  import opened Coordination
  import opened Runs

  /** The places of the record that requests write. */
  datatype Field =
    | BindingOf(issue: int) | OwnerOf(issue: int)
    | PathsOf(issue: int) | ContractsOf(issue: int) | ChecksOf(issue: int) | BlockersOf(issue: int)
    | EvidenceOf(issue: int) | MergeOf(issue: int) | ClaimOf(issue: int) | ReceiptOf(issue: int)
    | SupportOf(issue: int, pr: int) | ObservationOf(issue: int) | HolderOf(resource: string) | Version

  datatype Content =
    | Nothing
    | ABinding(binding: Binding) | AnOwner(owner: Owner) | Texts(texts: seq<string>) | Values(items: seq<Json>)
    | AnEvidence(evidence: Record) | AMerge(merge: Merge) | AClaim(claim: Claim) | AReceipt(receipt: Receipt)
    | ASupport(support: Supporting) | AnObservation(seen: Observation) | AHolder(holder: Resource)
    | AVersion(number: int)

  /** What the record holds at a place. */
  function At(s: State, f: Field): Content {
    match f
    case BindingOf(k) => if k in s.assignments then ABinding(s.assignments[k].now.binding) else Nothing
    case OwnerOf(k) => if k in s.assignments then AnOwner(s.assignments[k].now.owner) else Nothing
    case PathsOf(k) => if k in s.assignments then Texts(s.assignments[k].now.scope.paths) else Nothing
    case ContractsOf(k) => if k in s.assignments then Texts(s.assignments[k].now.scope.contracts) else Nothing
    case ChecksOf(k) => if k in s.assignments then Texts(s.assignments[k].now.scope.checks) else Nothing
    case BlockersOf(k) => if k in s.assignments then Values(s.assignments[k].now.scope.blockers) else Nothing
    case EvidenceOf(k) => if k in s.assignments then AnEvidence(s.assignments[k].now.evidence) else Nothing
    case MergeOf(k) => if k in s.assignments then AMerge(s.assignments[k].now.merge) else Nothing
    case ClaimOf(k) => if k in s.assignments then AClaim(s.assignments[k].now.claim) else Nothing
    case ReceiptOf(k) =>
      if k in s.assignments && s.assignments[k].now.receipt.Some? then AReceipt(s.assignments[k].now.receipt.value)
      else Nothing
    case SupportOf(k, pr) =>
      if k in s.assignments && pr in s.assignments[k].now.supporting
      then ASupport(s.assignments[k].now.supporting[pr]) else Nothing
    case ObservationOf(k) => if k in s.observations then AnObservation(s.observations[k]) else Nothing
    case HolderOf(name) => if name in s.resources then AHolder(s.resources[name]) else Nothing
    case Version => AVersion(s.schema)
  }

  /** What a request writes at a place, if it writes there at all. */
  function Writes(r: Request, f: Field): Option<Content> {
    match r.operation
    case ClaimIssue(k, binding, owner, scope) =>
      if f == BindingOf(k) then Some(ABinding(binding))
      else if f == OwnerOf(k) then Some(AnOwner(Owner(owner.worker, r.resolved, owner.branch)))
      else if f == PathsOf(k) then Some(Texts(scope.paths))
      else if f == ContractsOf(k) then Some(Texts(scope.contracts))
      else if f == ChecksOf(k) then Some(Texts(scope.checks))
      else if f == BlockersOf(k) then Some(Values(scope.blockers))
      else if f == EvidenceOf(k) then Some(AnEvidence(map[]))
      else if f == MergeOf(k) then Some(AMerge(Unmerged))
      else if f == ClaimOf(k) then Some(AClaim(Active))
      else None
    case Revise(k, binding) =>
      if f == BindingOf(k) then Some(ABinding(binding))
      else if f == EvidenceOf(k) then Some(AnEvidence(map[]))
      else if f == MergeOf(k) then Some(AMerge(Unmerged))
      else if f == ObservationOf(k) then Some(Nothing)
      else None
    case Amend(k, _, changes, _) =>
      if f == PathsOf(k) && changes.paths.Some? then Some(Texts(changes.paths.value))
      else if f == ContractsOf(k) && changes.contracts.Some? then Some(Texts(changes.contracts.value))
      else if f == ChecksOf(k) && changes.checks.Some? then Some(Texts(changes.checks.value))
      else if f == BlockersOf(k) && changes.blockers.Some? then Some(Values(changes.blockers.value))
      else if f == EvidenceOf(k) then Some(AnEvidence(map[]))
      else None
    case Adopt(k, _, owner, _) =>
      if f == OwnerOf(k) then Some(AnOwner(Owner(owner.worker, r.resolved, owner.branch)))
      else if f == ClaimOf(k) then Some(AClaim(Active))
      else if f == ReceiptOf(k) then Some(Nothing)
      else if f == EvidenceOf(k) then Some(AnEvidence(map[]))
      else None
    case Retire(k, _, receipt) =>
      if f == ClaimOf(k) then Some(AClaim(Retired))
      else if f == ReceiptOf(k) then Some(AReceipt(receipt))
      else if f == EvidenceOf(k) then Some(AnEvidence(map[]))
      else None
    case RecordEvidence(k, _, evidence) => if f == EvidenceOf(k) then Some(AnEvidence(evidence)) else None
    case Reserve(k, name, token, head, operation, reference) =>
      if f == HolderOf(name) then Some(AHolder(Resource(k, head, token, operation, reference))) else None
    case Release(name, _, _, _, _) => if f == HolderOf(name) then Some(Nothing) else None
    case ObserveMerge(o) =>
      if f == MergeOf(o.issue) then Some(AMerge(o.status))
      else if f == ObservationOf(o.issue) then Some(AnObservation(o))
      else None
    case ObservePrerequisite(m) =>
      if f == SupportOf(m.seen.issue, m.seen.pr) then Some(ASupport(m))
      else if f == Version then Some(AVersion(2))
      else None
  }

  /** After the request a place holds what it writes there, or else what it held before. */
  ghost predicate Wrote(s: State, r: Request, t: State, f: Field) {
    At(t, f) == match Writes(r, f) case Some(content) => content case None => At(s, f)
  }

  lemma ClaimWrites(s: State, r: Request, f: Field)
    requires Targeted(s, r) && r.operation.ClaimIssue?
    ensures Wrote(s, r, Committed(s, r), f)
  {
  }

  lemma ReviseWrites(s: State, r: Request, f: Field)
    requires Targeted(s, r) && r.operation.Revise?
    ensures Wrote(s, r, Committed(s, r), f)
  {
  }

  lemma AmendWrites(s: State, r: Request, f: Field)
    requires Targeted(s, r) && r.operation.Amend?
    ensures Wrote(s, r, Committed(s, r), f)
  {
  }

  lemma OwnershipWrites(s: State, r: Request, f: Field)
    requires Targeted(s, r) && (r.operation.Adopt? || r.operation.Retire? || r.operation.RecordEvidence?)
    ensures Wrote(s, r, Committed(s, r), f)
  {
  }

  lemma CustodyWrites(s: State, r: Request, f: Field)
    requires Targeted(s, r) && (r.operation.Reserve? || r.operation.Release?)
    ensures Wrote(s, r, Committed(s, r), f)
  {
  }

  lemma ObservationWrites(s: State, r: Request, f: Field)
    requires Targeted(s, r) && (r.operation.ObserveMerge? || r.operation.ObservePrerequisite?)
    ensures Wrote(s, r, Committed(s, r), f)
  {
  }

  /** One update writes exactly what it says and leaves every other place as it was. */
  lemma UpdateWrites(s: State, r: Request, t: State, f: Field)
    requires Commits(s, r, t)
    ensures At(t, f) == match Writes(r, f) case Some(content) => content case None => At(s, f)
  {
    hide Admits, Refused, Committed;
    match r.operation
    case ClaimIssue(_, _, _, _) => ClaimWrites(s, r, f);
    case Revise(_, _) => ReviseWrites(s, r, f);
    case Amend(_, _, _, _) => AmendWrites(s, r, f);
    case Adopt(_, _, _, _) => OwnershipWrites(s, r, f);
    case Retire(_, _, _) => OwnershipWrites(s, r, f);
    case RecordEvidence(_, _, _) => OwnershipWrites(s, r, f);
    case Reserve(_, _, _, _, _, _) => CustodyWrites(s, r, f);
    case Release(_, _, _, _, _) => CustodyWrites(s, r, f);
    case ObserveMerge(_) => ObservationWrites(s, r, f);
    case ObservePrerequisite(_) => ObservationWrites(s, r, f);
  }

  lemma EveryPlaceIsWritten(s: State, r: Request, t: State)
    requires Commits(s, r, t)
    ensures forall f :: Wrote(s, r, t, f)
  {
    forall f
      ensures Wrote(s, r, t, f)
    {
      UpdateWrites(s, r, t, f);
    }
  }

  /** The last request that wrote at a place before the n-th record, if any did. */
  ghost predicate LastWrites(requests: seq<Request>, n: nat, f: Field, i: nat)
    requires n <= |requests|
  {
    && i < n && Writes(requests[i], f).Some?
    && forall j :: i < j < n ==> Writes(requests[j], f) == None
  }

  /** At every moment of a run a place holds what the last request that writes there wrote. */
  lemma {:induction false} LastWriteStands(states: seq<State>, requests: seq<Request>, i: nat, n: nat, f: Field)
    requires IsRun(states, requests) && n <= |requests| && LastWrites(requests, n, f, i)
    ensures Writes(requests[i], f) == Some(At(states[n], f))
  {
    hide IsRun, Commits, Writes, At;
    RunStep(states, requests, n);
    UpdateWrites(states[n - 1], requests[n - 1], states[n], f);
    if i < n - 1 {
      LastWriteStands(states, requests, i, n - 1, f);
    }
  }

  /** A place that nobody wrote holds nothing, and an unwritten version is 1. */
  lemma {:induction false} UnwrittenStands(states: seq<State>, requests: seq<Request>, n: nat, f: Field)
    requires IsRun(states, requests) && n <= |requests| && forall i :: 0 <= i < n ==> Writes(requests[i], f) == None
    ensures At(states[n], f) == if f.Version? then AVersion(1) else Nothing
  {
    hide IsRun, Commits, Writes, At;
    if n == 0 {
      InitiallyNothing(states, requests, f);
    } else {
      RunStep(states, requests, n);
      UpdateWrites(states[n - 1], requests[n - 1], states[n], f);
      UnwrittenStands(states, requests, n - 1, f);
    }
  }

  /** So a place that some request wrote has a last one that did. */
  lemma {:induction false} SomeWriteIsLast(requests: seq<Request>, n: nat, f: Field) returns (i: nat)
    requires n <= |requests| && exists j :: 0 <= j < n && Writes(requests[j], f).Some?
    ensures LastWrites(requests, n, f, i)
  {
    hide Writes;
    if Writes(requests[n - 1], f).Some? {
      i := n - 1;
    } else {
      i := SomeWriteIsLast(requests, n - 1, f);
    }
  }

  lemma InitiallyNothing(states: seq<State>, requests: seq<Request>, f: Field)
    requires IsRun(states, requests)
    ensures At(states[0], f) == if f.Version? then AVersion(1) else Nothing
  {
  }
}
