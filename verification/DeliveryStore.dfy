/** The store as the program runs it: a working copy edited in place, then validated and published. */
module DeliveryStore {
  import opened Text
  import opened RepoPaths
  import opened Coordination
  import opened Runs
  import Effects
  import Refusals

  lemma CompatibleSymmetric(a: Snapshot, b: Snapshot)
    requires Compatible(a, b)
    ensures Compatible(b, a)
  {
    forall p, q | p in b.scope.paths && q in a.scope.paths
      ensures !Overlap(p, q)
    {
      OverlapIsComparable(p, q);
      OverlapIsComparable(q, p);
    }
  }

  /** The occupied issues, listed once each. */
  method OccupiedIssues(assignments: map<int, Assignment>) returns (issues: seq<int>)
    ensures Distinct(issues)
    ensures forall k :: k in issues <==> Occupied(assignments, k)
    ensures forall i :: 0 <= i < |issues| ==> issues[i] in assignments
  {
    issues := [];
    var rest := assignments.Keys;
    while rest != {}
      invariant rest <= assignments.Keys
      invariant Distinct(issues)
      invariant forall i :: 0 <= i < |issues| ==> issues[i] in assignments
      invariant forall k :: k in issues <==> Occupied(assignments, k) && k !in rest
      decreases rest
    {
      var k := Pick(rest);
      rest := rest - {k};
      if assignments[k].now.claim.Active? {
        issues := issues + [k];
      }
    }
  }

  /** Comparing each occupied claim with the later ones is the full pairwise condition. */
  method CheckExclusive(assignments: map<int, Assignment>) returns (ok: bool)
    ensures ok <==> Exclusive(assignments)
  {
    var issues := OccupiedIssues(assignments);
    for i := 0 to |issues|
      invariant forall a, b :: 0 <= a < i && a < b < |issues| ==>
        Compatible(assignments[issues[a]].now, assignments[issues[b]].now)
    {
      for j := i + 1 to |issues|
        invariant forall b :: i < b < j ==> Compatible(assignments[issues[i]].now, assignments[issues[b]].now)
      {
        if !Compatible(assignments[issues[i]].now, assignments[issues[j]].now) {
          assert Occupied(assignments, issues[i]) && Occupied(assignments, issues[j]);
          return false;
        }
      }
    }
    forall j, k | Occupied(assignments, j) && Occupied(assignments, k) && j != k
      ensures Compatible(assignments[j].now, assignments[k].now)
    {
      var a :| 0 <= a < |issues| && issues[a] == j;
      var b :| 0 <= b < |issues| && issues[b] == k;
      if b < a {
        CompatibleSymmetric(assignments[k].now, assignments[j].now);
      }
    }
    return true;
  }

  method Validate(s: State) returns (ok: bool)
    ensures ok <==> ValidState(s)
  {
    if !(s.schema in {1, 2} && s.revision >= 0 && ValidHeader(s.header) && ValidAssignments(s)) {
      return false;
    }
    var exclusive := CheckExclusive(s.assignments);
    ok := exclusive && ValidResources(s) && ValidObservations(s);
  }

  method Replace(before: Scope, changes: Changes) returns (scope: Scope)
    ensures scope == Amended(before, changes)
  {
    scope := before;
    if changes.paths.Some? { scope := scope.(paths := changes.paths.value); }
    if changes.contracts.Some? { scope := scope.(contracts := changes.contracts.value); }
    if changes.checks.Some? { scope := scope.(checks := changes.checks.value); }
    if changes.blockers.Some? { scope := scope.(blockers := changes.blockers.value); }
  }

  /** The working copy that one update edits; a refused update abandons it half-edited. */
  class Draft {
    const header: Header
    const revision: int
    var schema: int
    var assignments: map<int, Assignment>
    var resources: map<string, Resource>
    var observations: map<int, Observation>

    function Contents(): State
      reads this
    {
      State(header, schema, revision, assignments, resources, observations)
    }

    constructor (s: State)
      ensures Contents() == s
    {
      header, schema, revision := s.header, s.schema, s.revision;
      assignments, resources, observations := s.assignments, s.resources, s.observations;
    }

    /** Preserve the current fields before they are replaced. */
    method Archive(k: int, op: Operation)
      requires k in assignments
      modifies this`assignments
      ensures var a := old(assignments)[k];
              assignments == old(assignments)[k :=
                Assignment(a.now, a.history + [Event(revision + 1, op, a.now)])]
    {
      var a := assignments[k];
      assignments := assignments[k := a.(history := a.history + [Event(revision + 1, op, a.now)])];
    }

    method Update(k: int, now: Snapshot)
      requires k in assignments
      modifies this`assignments
      ensures assignments == old(assignments)[k := Assignment(now, old(assignments)[k].history)]
    {
      assignments := assignments[k := Assignment(now, assignments[k].history)];
    }

    method DoRelease(r: Request) returns (ok: bool)
      requires r.operation.Release?
      modifies this
      ensures ok <==> AdmitsRelease(old(Contents()), r.operation)
      ensures ok ==> Targeted(old(Contents()), r) && Contents() == Result(old(Contents()), r)
    {
      var Release(name, token, head, cleanup, reference) := r.operation;
      if !NonBlank(name) || name !in resources {
        return false;
      }
      var held := resources[name];
      if token != held.token || cleanup != "verified_clean" || head != held.head || !NonBlank(reference) {
        return false;
      }
      if held.issue !in assignments {
        return false;
      }
      Archive(held.issue, r.operation);
      resources := resources - {name};
      return true;
    }

    method DoClaim(r: Request) returns (ok: bool)
      requires r.operation.ClaimIssue?
      modifies this
      ensures ok <==> AdmitsClaim(old(Contents()), r)
      ensures ok ==> Targeted(old(Contents()), r) && Contents() == Result(old(Contents()), r)
    {
      var ClaimIssue(k, binding, owner, scope) := r.operation;
      if k < 1 || k !in header.allowed || k in assignments {
        return false;
      }
      if !NonBlank(owner.worktree) || !IsAbsolute(owner.worktree) {
        return false;
      }
      var claimed := Snapshot(k, owner.(worktree := r.resolved), binding, scope, map[], Unmerged, Active, None, map[]);
      if !ValidAssignment(Assignment(claimed, [])) {
        return false;
      }
      assignments := assignments[k := Assignment(claimed, [])];
      ok := CheckExclusive(assignments);
    }

    method DoObservePrerequisite(k: int, r: Request) returns (ok: bool)
      requires r.operation.ObservePrerequisite? && k == r.operation.support.seen.issue && k in assignments
      modifies this
      ensures ok <==> AdmitsOn(old(Contents()), k, r)
      ensures ok ==> Contents() == Result(old(Contents()), r)
    {
      hide ValidObservation;
      var m, a := r.operation.support, assignments[k].now;
      if !KnownFields(m.seen) || !ValidObservation(m.seen) || BindingOf(m) != a.binding {
        return false;
      }
      if a.claim.Retired? || a.merge.Uncertain? || a.merge.Merged? {
        return false;
      }
      if !NonBlank(m.scope) || !NonBlank(m.assessment) {
        return false;
      }
      var previous := if m.seen.pr in a.supporting then Some(a.supporting[m.seen.pr]) else None;
      if previous.Some? {
        var p := previous.value;
        if p.seen.status.Merged? {
          return false;
        }
        if p.seen.status.Uncertain?
           && (BindingOf(p) != BindingOf(m) || p.scope != m.scope || p.assessment != m.assessment)
        {
          return false;
        }
      }
      if SupportUncertain(a) && (previous.None? || !previous.value.seen.status.Uncertain?) {
        return false;
      }
      Archive(k, r.operation);
      Update(k, a.(supporting := a.supporting[m.seen.pr := m]));
      schema := 2;
      return true;
    }

    method DoObserveMerge(k: int, r: Request) returns (ok: bool)
      requires r.operation.ObserveMerge? && k == r.operation.seen.issue && k in assignments
      requires !SupportUncertain(assignments[k].now)
      modifies this
      ensures ok <==> AdmitsOn(old(Contents()), k, r)
      ensures ok ==> Contents() == Result(old(Contents()), r)
    {
      var o, a := r.operation.seen, assignments[k].now;
      if !KnownFields(o) || !ValidObservation(o) || o.head != a.binding.head {
        return false;
      }
      if a.merge.Merged? && !o.status.Merged? {
        return false;
      }
      Archive(k, r.operation);
      observations := observations[k := o];
      Update(k, a.(merge := o.status));
      return true;
    }

    /** The guards shared by retire, adopt, amend and revise. */
    method CheckLifecycle(k: int, r: Request) returns (ok: bool)
      requires k in assignments
      requires var op := r.operation; op.Retire? || op.Adopt? || op.Amend? || op.Revise?
      ensures ok <==>
        && (r.operation.binding == assignments[k].now.binding || r.operation.Revise?)
        && !Held(Contents(), k)
    {
      if r.operation.binding != assignments[k].now.binding && !r.operation.Revise? {
        return false;
      }
      return !Held(Contents(), k);
    }

    method DoRetire(k: int, r: Request) returns (ok: bool)
      requires r.operation.Retire? && k == r.operation.issue && k in assignments
      requires !SupportUncertain(assignments[k].now) && !assignments[k].now.merge.Uncertain?
      modifies this
      ensures ok <==> AdmitsOn(old(Contents()), k, r)
      ensures ok ==> Contents() == Result(old(Contents()), r)
    {
      var a, receipt := assignments[k].now, r.operation.receipt;
      ok := CheckLifecycle(k, r);
      if !ok || a.claim.Retired? || !Stops(receipt, a) {
        return false;
      }
      Archive(k, r.operation);
      Update(k, a.(claim := Retired, receipt := Some(receipt), evidence := map[]));
    }

    method DoAdopt(k: int, r: Request) returns (ok: bool)
      requires r.operation.Adopt? && k == r.operation.issue && k in assignments
      requires var a := assignments[k].now; !SupportUncertain(a) && !a.merge.Uncertain? && !a.merge.Merged?
      modifies this
      ensures ok <==> AdmitsOn(old(Contents()), k, r)
      ensures ok ==> Contents() == Result(old(Contents()), r)
    {
      hide ValidSnapshot, Exclusive, Stops;
      var a, owner := assignments[k].now, r.operation.owner;
      ok := CheckLifecycle(k, r);
      if !ok || !Stops(r.operation.receipt, a) || !NonBlank(owner.worktree) || !IsAbsolute(owner.worktree) {
        return false;
      }
      Archive(k, r.operation);
      Update(k, a.(owner := owner.(worktree := r.resolved), claim := Active, receipt := None, evidence := map[]));
      SameExclusive(assignments, old(assignments)[k := Assignment(Local(a, r), [])]);
      var exclusive := CheckExclusive(assignments);
      ok := ValidSnapshot(assignments[k].now) && exclusive;
    }

    method DoRevise(k: int, r: Request) returns (ok: bool)
      requires r.operation.Revise? && k == r.operation.issue && k in assignments
      requires var a := assignments[k].now; !SupportUncertain(a) && !a.merge.Uncertain? && !a.merge.Merged?
      requires assignments[k].now.claim.Active?
      modifies this
      ensures ok <==> AdmitsOn(old(Contents()), k, r)
      ensures ok ==> Contents() == Result(old(Contents()), r)
    {
      var a := assignments[k].now;
      ok := CheckLifecycle(k, r);
      if !ok || !ValidBinding(r.operation.binding) {
        return false;
      }
      Archive(k, r.operation);
      Update(k, a.(binding := r.operation.binding, evidence := map[], merge := Unmerged));
      observations := observations - {k};
    }

    method DoAmend(k: int, r: Request) returns (ok: bool)
      requires r.operation.Amend? && k == r.operation.issue && k in assignments
      requires var a := assignments[k].now; !SupportUncertain(a) && !a.merge.Uncertain? && !a.merge.Merged?
      requires assignments[k].now.claim.Active?
      modifies this
      ensures ok <==> AdmitsOn(old(Contents()), k, r)
      ensures ok ==> Contents() == Result(old(Contents()), r)
    {
      hide ValidSnapshot, Exclusive, Amended;
      var a, changes := assignments[k].now, r.operation.changes;
      ok := CheckLifecycle(k, r);
      if !ok || changes == Changes(None, None, None, None) || !NonBlank(r.operation.reference) {
        return false;
      }
      Archive(k, r.operation);
      var scope := Replace(a.scope, changes);
      Update(k, a.(scope := scope, evidence := map[]));
      SameExclusive(assignments, old(assignments)[k := Assignment(Local(a, r), [])]);
      var exclusive := CheckExclusive(assignments);
      ok := ValidSnapshot(assignments[k].now) && exclusive;
    }

    method DoReserve(k: int, r: Request) returns (ok: bool)
      requires r.operation.Reserve? && k == r.operation.issue && k in assignments
      requires var a := assignments[k].now; !SupportUncertain(a) && !a.merge.Uncertain? && !a.merge.Merged?
      requires assignments[k].now.claim.Active?
      modifies this
      ensures ok <==> AdmitsOn(old(Contents()), k, r)
      ensures ok ==> Contents() == Result(old(Contents()), r)
    {
      var Reserve(_, name, token, head, operation, reference) := r.operation;
      if !NonBlank(name) || name in resources || head != assignments[k].now.binding.head {
        return false;
      }
      resources := resources[name := Resource(k, head, token, operation, reference)];
      assert assignments == assignments[k := assignments[k]];
      return true;
    }

    method DoRecordEvidence(k: int, r: Request) returns (ok: bool)
      requires r.operation.RecordEvidence? && k == r.operation.issue && k in assignments
      requires var a := assignments[k].now; !SupportUncertain(a) && !a.merge.Uncertain? && !a.merge.Merged?
      requires assignments[k].now.claim.Active?
      modifies this
      ensures ok <==> AdmitsOn(old(Contents()), k, r)
      ensures ok ==> Contents() == Result(old(Contents()), r)
    {
      if r.operation.binding != assignments[k].now.binding {
        return false;
      }
      Update(k, assignments[k].now.(evidence := r.operation.evidence));
      return true;
    }

    /** One transition, with its guards in the order in which they are taken. */
    method Operate(r: Request) returns (ok: bool)
      modifies this
      ensures ok <==> Admits(old(Contents()), r)
      ensures ok ==> Targeted(old(Contents()), r) && Contents() == Result(old(Contents()), r)
    {
      if r.operation.Release? {
        ok := DoRelease(r);
        return;
      }
      if r.operation.ClaimIssue? {
        ok := DoClaim(r);
        return;
      }
      var k := Target(Contents(), r.operation);
      if k < 1 || k !in header.allowed || k !in assignments {
        return false;
      }
      ok := OperateOn(k, r);
    }

    method OperateOn(k: int, r: Request) returns (ok: bool)
      requires !r.operation.Release? && !r.operation.ClaimIssue?
      requires k == Target(Contents(), r.operation) && k in assignments
      modifies this
      ensures ok <==> AdmitsOn(old(Contents()), k, r)
      ensures ok ==> Contents() == Result(old(Contents()), r)
    {
      var a := assignments[k].now;
      if r.operation.ObservePrerequisite? {
        ok := DoObservePrerequisite(k, r);
        return;
      }
      if SupportUncertain(a) {
        return false;
      }
      if r.operation.ObserveMerge? {
        ok := DoObserveMerge(k, r);
        return;
      }
      if a.merge.Uncertain? {
        return false;
      }
      if r.operation.Retire? {
        ok := DoRetire(k, r);
        return;
      }
      if a.merge.Merged? {
        return false;
      }
      if r.operation.Adopt? {
        ok := DoAdopt(k, r);
        return;
      }
      if a.claim.Retired? {
        return false;
      }
      if r.operation.Revise? {
        ok := DoRevise(k, r);
      } else if r.operation.Amend? {
        ok := DoAmend(k, r);
      } else if r.operation.RecordEvidence? {
        ok := DoRecordEvidence(k, r);
      } else {
        ok := DoReserve(k, r);
      }
    }
  }

  /** Exclusivity ignores histories. */
  lemma SameExclusive(m: map<int, Assignment>, n: map<int, Assignment>)
    requires m.Keys == n.Keys && forall j :: j in m ==> m[j].now == n[j].now
    ensures Exclusive(m) <==> Exclusive(n)
  {
    if Exclusive(m) { ExclusiveTransfer(m, n); }
    if Exclusive(n) { ExclusiveTransfer(n, m); }
  }

  datatype Reply = Applied(state: State) | ValueError

  /** Operate on a copy, raise its revision and validate what would be written. */
  method Updated(current: State, r: Request) returns (reply: Reply)
    requires ValidState(current)
    ensures reply.Applied? <==> Admits(current, r) && !Refused(current, r)
    ensures reply.Applied? ==> Targeted(current, r) && reply.state == Committed(current, r)
    ensures reply.Applied? ==> reply.state.revision == current.revision + 1
    ensures reply.Applied? ==> forall f :: Effects.Wrote(current, r, reply.state, f)
    ensures reply.ValueError? <==> (exists g :: Refusals.Refuses(current, r, g)) || Refused(current, r)
  {
    hide ValidState, Admits, Refused, Effects.Wrote, Refusals.Refuses;
    Refusals.AdmittedExactly(current, r);
    var draft := new Draft(current);
    var ok := draft.Operate(r);
    if !ok {
      return ValueError;
    }
    var written := draft.Contents().(revision := current.revision + 1);
    Preservation(current, r);
    ok := Validate(written);
    if ok {
      Effects.EveryPlaceIsWritten(current, r, written);
    }
    return if ok then Applied(written) else ValueError;
  }

  /** The published record; the ghost fields keep the run that led to it. */
  class StateStore {
    var file: Option<State>
    ghost var states: seq<State>
    ghost var requests: seq<Request>

    /** Everything ever published by this store is one run from an initial record. */
    ghost predicate Valid()
      reads this
    {
      match file
      case None => states == [] && requests == []
      case Some(s) => IsRun(states, requests) && s == states[|requests|]
    }

    constructor ()
      ensures Valid() && file == None
    {
      file, states, requests := None, [], [];
    }

    method Initialize(header: Header) returns (reply: Reply)
      requires Valid()
      modifies this
      ensures Valid()
      ensures reply.Applied? <==> old(file) == None && ValidState(Fresh(header))
      ensures reply.Applied? ==> file == Some(Fresh(header)) && reply.state == Fresh(header)
      ensures reply.ValueError? ==> file == old(file) && states == old(states) && requests == old(requests)
    {
      var state := State(header, 1, 0, map[], map[], map[]);
      var ok := Validate(state);
      if !ok || file.Some? {
        return ValueError;
      }
      file, states, requests := Some(state), [state], [];
      return Applied(state);
    }

    /** A checked update either publishes exactly the committed record or changes nothing. */
    method Apply(runId: string, coordinator: string, expected: int, r: Request) returns (reply: Reply)
      requires Valid()
      modifies this
      ensures Valid()
      ensures reply.Applied? <==>
        && old(file).Some?
        && var s := old(file).value;
        && s.header.runId == runId && s.header.coordinator == coordinator && s.revision == expected
        && Admits(s, r) && !Refused(s, r)
      ensures reply.Applied? ==>
        && Targeted(old(file).value, r)
        && file == Some(Committed(old(file).value, r)) && reply.state == file.value
        && states == old(states) + [reply.state] && requests == old(requests) + [r]
        && file.value.revision == expected + 1
        && forall f :: Effects.Wrote(old(file).value, r, file.value, f)
      ensures old(file).Some? && (exists g :: Refusals.Refuses(old(file).value, r, g)) ==> reply.ValueError?
      ensures reply.ValueError? ==> file == old(file) && states == old(states) && requests == old(requests)
    {
      hide ValidState, Admits, Refused, Committed, IsRun, Effects.Wrote, Refusals.Refuses;
      if expected < 0 || file.None? {
        RevisionsAreNatural(states, requests);
        return ValueError;
      }
      var current := file.value;
      StatesAreValid(states, requests, |requests|);
      var readable := Validate(current);
      if !readable || current.header.runId != runId || current.header.coordinator != coordinator
         || current.revision != expected
      {
        return ValueError;
      }
      reply := Updated(current, r);
      if reply.ValueError? {
        return;
      }
      var written := reply.state;
      RunExtends(states, requests, r);
      file, states, requests := Some(written), states + [written], requests + [r];
    }
  }
}
