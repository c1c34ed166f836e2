/** Invariants that no check states and that hold only because of how runs unfold. */
module Safety {
  import opened Text
  import opened Json
  import opened RepoPaths
  import opened Coordination
  import opened Runs

  // ---------------------------------------------------------------- uncertainty

  predicate IsUncertain(a: Snapshot, pr: int) {
    pr in a.supporting && a.supporting[pr].seen.status.Uncertain?
  }

  /** At most one uncertain supporting merge, bound to the present binding, beside an open main merge. */
  ghost predicate Disciplined(a: Snapshot) {
    && (forall p, q :: IsUncertain(a, p) && IsUncertain(a, q) ==> p == q)
    && (forall p :: IsUncertain(a, p) ==>
          && BindingOf(a.supporting[p]) == a.binding
          && !a.merge.Uncertain? && !a.merge.Merged? && a.claim.Active?)
  }

  lemma {:induction false} UncertaintyDiscipline(states: seq<State>, requests: seq<Request>, n: nat, k: int)
    requires IsRun(states, requests) && n <= |requests| && k in states[n].assignments
    ensures Disciplined(states[n].assignments[k].now)
  {
    if n > 0 {
      if k in states[n - 1].assignments {
        UncertaintyDiscipline(states, requests, n - 1, k);
      }
      DisciplineStep(states[n - 1], requests[n - 1], states[n], k);
    }
  }

  lemma DisciplineStep(s: State, r: Request, t: State, k: int)
    requires Commits(s, r, t) && k in t.assignments
    requires k in s.assignments ==> Disciplined(s.assignments[k].now)
    ensures Disciplined(t.assignments[k].now)
  {
    Shape(s, r);
    if k in s.assignments && k == Target(s, r.operation) {
      DisciplineKept(s, k, r);
    }
  }

  lemma DisciplineKept(s: State, k: int, r: Request)
    requires k in s.assignments && k == Target(s, r.operation) && Disciplined(s.assignments[k].now)
    requires r.operation.Release? || (!r.operation.ClaimIssue? && AdmitsOn(s, k, r))
    ensures Disciplined(Local(s.assignments[k].now, r))
  {
    var a, b := s.assignments[k].now, Local(s.assignments[k].now, r);
    if r.operation.ObservePrerequisite? {
      var m := r.operation.support;
      forall p | IsUncertain(b, p)
        ensures p == m.seen.pr
      {
        assert p != m.seen.pr ==> IsUncertain(a, p) && SupportUncertain(a) && IsUncertain(a, m.seen.pr);
      }
    } else if !r.operation.Release? {
      assert b.supporting == a.supporting;
    }
  }

  /** An uncertain merge, main or supporting, is resolved by an observation of that merge and nothing else. */
  lemma OnlyObservationSettles(s: State, r: Request, t: State, k: int)
    requires Commits(s, r, t) && k in s.assignments && k in t.assignments
    ensures s.assignments[k].now.merge.Uncertain? && t.assignments[k].now.merge != s.assignments[k].now.merge ==>
              r.operation.ObserveMerge? && r.operation.seen.issue == k
    ensures forall pr :: IsUncertain(s.assignments[k].now, pr) ==>
                && pr in t.assignments[k].now.supporting
                && (t.assignments[k].now.supporting[pr] != s.assignments[k].now.supporting[pr] ==>
                      && r.operation.ObservePrerequisite?
                      && r.operation.support.seen.pr == pr && r.operation.support.seen.issue == k)
    ensures s.assignments[k].now.merge.Uncertain? || SupportUncertain(s.assignments[k].now) ==>
              && t.assignments[k].now.owner == s.assignments[k].now.owner
              && t.assignments[k].now.binding == s.assignments[k].now.binding
              && t.assignments[k].now.scope == s.assignments[k].now.scope
              && t.assignments[k].now.claim == s.assignments[k].now.claim
  {
    Shape(s, r);
  }

  // ---------------------------------------------------------------- custody

  /** The part of a claim that says who works on what, under which revision. */
  ghost predicate SameTerms(a: Snapshot, b: Snapshot) {
    a.owner == b.owner && a.binding == b.binding && a.scope == b.scope && a.claim == b.claim
  }

  /** A held resource stays as it is, and its owner's terms with it, unless it is released on proof. */
  lemma HeldStep(s: State, r: Request, t: State, name: string)
    requires Commits(s, r, t) && name in s.resources && s.resources[name].issue in s.assignments
    ensures name !in t.resources ==>
              && r.operation.Release? && r.operation.resource == name
              && r.operation.token == s.resources[name].token
              && r.operation.head == s.resources[name].head
              && r.operation.cleanup == "verified_clean"
    ensures name in t.resources ==> t.resources[name] == s.resources[name]
    ensures s.resources[name].issue in t.assignments
    ensures SameTerms(s.assignments[s.resources[name].issue].now, t.assignments[s.resources[name].issue].now)
  {
    Shape(s, r);
    assert Held(s, s.resources[name].issue);
  }

  /** Every held resource belongs to an active claim and carries that claim's present head. */
  lemma {:induction false} CustodyHeads(states: seq<State>, requests: seq<Request>, n: nat, name: string)
    requires IsRun(states, requests) && n <= |requests| && name in states[n].resources
    ensures var held := states[n].resources[name];
            && Occupied(states[n].assignments, held.issue)
            && held.head == states[n].assignments[held.issue].now.binding.head
  {
    hide Commits, ValidState;
    StatesAreValid(states, requests, n);
    HolderIsActive(states[n], name);
    if n > 0 {
      if name in states[n - 1].resources {
        CustodyHeads(states, requests, n - 1, name);
      }
      HeadStep(states[n - 1], requests[n - 1], states[n], name);
    }
  }

  lemma HolderIsActive(s: State, name: string)
    requires ValidState(s) && name in s.resources
    ensures Occupied(s.assignments, s.resources[name].issue)
  {
    assert ValidResource(s, name, s.resources[name]);
  }

  lemma HeadStep(s: State, r: Request, t: State, name: string)
    requires Commits(s, r, t) && name in t.resources && t.resources[name].issue in t.assignments
    requires name in s.resources ==>
               && s.resources[name].issue in s.assignments
               && s.resources[name].head == s.assignments[s.resources[name].issue].now.binding.head
    ensures t.resources[name].head == t.assignments[t.resources[name].issue].now.binding.head
  {
    if name in s.resources {
      HeldStep(s, r, t, name);
    }
  }

  /** While a resource is not released, neither it nor the terms of its owner change over any stretch of a run. */
  lemma {:induction false} CustodyFreezesOwner(states: seq<State>, requests: seq<Request>, m: nat, n: nat, name: string)
    requires IsRun(states, requests) && m <= n <= |requests| && name in states[m].resources
    requires forall i :: m <= i < n && requests[i].operation.Release? ==> requests[i].operation.resource != name
    ensures name in states[n].resources && states[n].resources[name] == states[m].resources[name]
    ensures var k := states[m].resources[name].issue;
            && k in states[m].assignments && k in states[n].assignments
            && SameTerms(states[m].assignments[k].now, states[n].assignments[k].now)
  {
    hide Admits;
    if m == n {
      CustodyHeads(states, requests, m, name);
    } else {
      CustodyFreezesOwner(states, requests, m, n - 1, name);
      assert Commits(states[n - 1], requests[n - 1], states[n]);
      HeldStep(states[n - 1], requests[n - 1], states[n], name);
    }
  }

  // ---------------------------------------------------------------- handover

  /** This request carries the verified stop of the claim's present owner, under its present binding. */
  ghost predicate HandsOver(r: Request, a: Snapshot) {
    (r.operation.Adopt? || r.operation.Retire?) && r.operation.issue == a.issue && Stops(r.operation.receipt, a)
  }

  /** Which request may change what, and on which proof. */
  lemma TermsStep(s: State, r: Request, t: State, k: int)
    requires Commits(s, r, t) && k in s.assignments && k in t.assignments && s.assignments[k].now.issue == k
    ensures var a, b := s.assignments[k].now, t.assignments[k].now;
            && (b.owner != a.owner ==> r.operation.Adopt? && HandsOver(r, a))
            && (b.claim != a.claim ==> HandsOver(r, a))
            && (b.binding != a.binding ==> r.operation.Revise? && a.claim.Active? && b.merge.Unmerged?)
            && (b.scope != a.scope ==> r.operation.Amend? && r.operation.binding == a.binding && a.claim.Active?)
            && (!SameTerms(a, b) ==> b.evidence == map[] && !Held(s, k) && !a.merge.Uncertain? && !SupportUncertain(a))
  {
    Shape(s, r);
  }

  /** Ownership never lapses by itself: an owner is replaced or retired only where its stop was proved. */
  lemma {:induction false} OwnershipNeedsHandover(states: seq<State>, requests: seq<Request>, m: nat, n: nat, k: int)
    requires IsRun(states, requests) && m <= n <= |requests| && k in states[m].assignments
    ensures k in states[n].assignments
    ensures var a, b := states[m].assignments[k].now, states[n].assignments[k].now;
            a.owner != b.owner || a.claim != b.claim ==>
              exists i :: m <= i < n && k in states[i].assignments
                       && states[i].assignments[k].now.owner == a.owner
                       && HandsOver(requests[i], states[i].assignments[k].now)
    decreases n - m
  {
    hide IsRun, Commits, ValidState, HandsOver;
    NothingIsLost(states, requests, m, n, k);
    if m < n {
      RunStep(states, requests, m + 1);
      IssueIsKey(states, requests, m, k);
      TermsStep(states[m], requests[m], states[m + 1], k);
      NothingIsLost(states, requests, m, m + 1, k);
      OwnershipNeedsHandover(states, requests, m + 1, n, k);
    }
  }

  lemma IssueIsKey(states: seq<State>, requests: seq<Request>, n: nat, k: int)
    requires IsRun(states, requests) && n <= |requests| && k in states[n].assignments
    ensures states[n].assignments[k].now.issue == k
  {
    StatesAreValid(states, requests, n);
  }

  // ---------------------------------------------------------------- evidence

  /** Recorded at request i, and nothing it speaks about has changed since. */
  ghost predicate RecordedAt(states: seq<State>, requests: seq<Request>, i: nat, n: nat, k: int)
    requires i < n <= |requests| < |states| && k in states[n].assignments
  {
    var a := states[n].assignments[k].now;
    && requests[i].operation == RecordEvidence(k, a.binding, a.evidence)
    && forall j :: i < j <= n ==>
         && k in states[j].assignments
         && SameTerms(states[j].assignments[k].now, a)
         && states[j].assignments[k].now.evidence == a.evidence
  }

  /** Evidence on record was recorded under the present owner, binding and scope. */
  lemma {:induction false} EvidenceIsFresh(states: seq<State>, requests: seq<Request>, n: nat, k: int)
    requires IsRun(states, requests) && n <= |requests| && k in states[n].assignments
    ensures states[n].assignments[k].now.evidence != map[] ==>
              exists i :: 0 <= i < n && RecordedAt(states, requests, i, n, k)
  {
    hide Admits;
    if n > 0 && states[n].assignments[k].now.evidence != map[] {
      var s, r, t := states[n - 1], requests[n - 1], states[n];
      assert Commits(s, r, t);
      EvidenceStep(s, r, t, k);
      if r.operation.RecordEvidence? && r.operation.issue == k {
        assert RecordedAt(states, requests, n - 1, n, k);
      } else {
        EvidenceIsFresh(states, requests, n - 1, k);
        var i :| 0 <= i < n - 1 && RecordedAt(states, requests, i, n - 1, k);
        assert RecordedAt(states, requests, i, n, k);
      }
    }
  }

  lemma EvidenceStep(s: State, r: Request, t: State, k: int)
    requires Commits(s, r, t) && k in t.assignments && t.assignments[k].now.evidence != map[]
    ensures k in s.assignments && SameTerms(s.assignments[k].now, t.assignments[k].now)
    ensures if r.operation.RecordEvidence? && r.operation.issue == k
            then r.operation == RecordEvidence(k, t.assignments[k].now.binding, t.assignments[k].now.evidence)
            else t.assignments[k].now.evidence == s.assignments[k].now.evidence
  {
    Shape(s, r);
  }

  // ---------------------------------------------------------------- the merge automaton

  lemma MergedStep(s: State, r: Request, t: State, k: int)
    requires Commits(s, r, t) && k in s.assignments && s.assignments[k].now.merge.Merged?
    ensures k in t.assignments
    ensures var a, b := s.assignments[k].now, t.assignments[k].now;
            && b.merge.Merged? && b.owner == a.owner && b.binding == a.binding && b.scope == a.scope
            && b.supporting == a.supporting
            && (b != a ==> r.operation.Retire? && a.claim.Active? && b.claim.Retired?)
  {
    Shape(s, r);
  }

  /** A merged issue stays merged, and its owner, binding, scope and supporting merges are fixed for good. */
  lemma {:induction false} MergedIsForever(states: seq<State>, requests: seq<Request>, m: nat, n: nat, k: int)
    requires IsRun(states, requests) && m <= n <= |requests|
    requires k in states[m].assignments && states[m].assignments[k].now.merge.Merged?
    ensures k in states[n].assignments
    ensures var a, b := states[m].assignments[k].now, states[n].assignments[k].now;
            && b.merge.Merged? && b.owner == a.owner && b.binding == a.binding && b.scope == a.scope
            && b.supporting == a.supporting && (a.claim.Retired? ==> b == a)
  {
    hide Admits;
    if m < n {
      MergedIsForever(states, requests, m, n - 1, k);
      assert Commits(states[n - 1], requests[n - 1], states[n]);
      MergedStep(states[n - 1], requests[n - 1], states[n], k);
    }
  }

  /** A retired and merged issue admits exactly the repeated merged observations of its own head. */
  lemma TerminalAdmits(s: State, r: Request, k: int)
    requires ValidState(s) && k in s.assignments
    requires s.assignments[k].now.merge.Merged? && s.assignments[k].now.claim.Retired?
    requires Target(s, r.operation) == k
    ensures Admits(s, r) <==>
              && r.operation.ObserveMerge?
              && var o := r.operation.seen;
              && KnownFields(o) && ValidObservation(o) && o.status.Merged?
              && o.head == s.assignments[k].now.binding.head
  {
    assert ValidAssignment(s.assignments[k]);
  }

  // ---------------------------------------------------------------- territory

  /** `file` lies under a claim of issue k. */
  ghost predicate Covers(s: State, k: int, file: seq<string>)
    requires k in s.assignments
  {
    exists p :: p in s.assignments[k].now.scope.paths && Under(file, p)
  }

  /** No file of the repository lies under the claims of two occupied issues, at any moment of a run. */
  lemma Territory(states: seq<State>, requests: seq<Request>, n: nat, j: int, k: int, file: seq<string>)
    requires IsRun(states, requests) && n <= |requests| && j != k
    requires Occupied(states[n].assignments, j) && Occupied(states[n].assignments, k)
    ensures !(Covers(states[n], j, file) && Covers(states[n], k, file))
  {
    hide Commits;
    StatesAreValid(states, requests, n);
    var s := states[n];
    assert Compatible(s.assignments[j].now, s.assignments[k].now);
    if Covers(s, j, file) && Covers(s, k, file) {
      var p :| p in s.assignments[j].now.scope.paths && Under(file, p);
      var q :| q in s.assignments[k].now.scope.paths && Under(file, q);
      assert ValidAssignment(s.assignments[j]) && ValidAssignment(s.assignments[k]);
      OverlapIffSharedFile(p, q);
      assert false;
    }
  }

  /** Two claims of accepted paths share no file exactly when no two of their paths overlap. */
  lemma DisjointPathsExact(a: seq<string>, b: seq<string>)
    requires forall p :: p in a + b ==> IsClaimPath(p)
    ensures (forall p, q :: p in a && q in b ==> !Overlap(p, q)) <==>
            !exists file, p, q :: p in a && q in b && Under(file, p) && Under(file, q)
  {
    forall p, q | p in a && q in b
      ensures Overlap(p, q) <==> exists file :: Under(file, p) && Under(file, q)
    {
      assert p in a + b && q in a + b;
      OverlapIffSharedFile(p, q);
    }
  }
}
