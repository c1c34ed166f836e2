/** Runs in which the record does what its callers might not expect, from any first claim on. */
module Witnesses {
  import opened Text
  import opened Json
  import opened RepoPaths
  import opened Coordination
  import opened Runs

  /** An initialized record and a claim that it admits. */
  ghost predicate Opens(header: Header, claim: Request) {
    && ValidHeader(header) && claim.operation.ClaimIssue?
    && Targeted(Fresh(header), claim) && Admits(Fresh(header), claim)
  }

  /** The run that consists of the claim. */
  lemma Begun(header: Header, claim: Request) returns (states: seq<State>, requests: seq<Request>)
    requires Opens(header, claim)
    ensures IsRun(states, requests) && requests == [claim] && |states| == 2
    ensures var s, k := states[1], claim.operation.issue;
            && ValidState(s) && s.header == header && s.revision == 1 && s.resources == map[]
            && InScope(s, k) && k in s.assignments && s.assignments[k] == Claimed(claim)
  {
    hide ValidHeader, AdmitsClaim, InScope;
    var s := Fresh(header);
    assert ValidState(s);
    assert IsRun([s], []);
    RunExtends([s], [], claim);
    states, requests := [s] + [Committed(s, claim)], [] + [claim];
    StatesAreValid(states, requests, 1);
    assert InScope(s, claim.operation.issue) by {
      assert AdmitsClaim(s, claim);
      ClaimsAreInScope(s, claim);
    }
    ScopeIsInHeader(s, states[1], claim.operation.issue);
  }

  lemma ClaimsAreInScope(s: State, r: Request)
    requires r.operation.ClaimIssue? && AdmitsClaim(s, r)
    ensures InScope(s, r.operation.issue)
  {
  }

  lemma ScopeIsInHeader(s: State, t: State, k: int)
    requires s.header == t.header && InScope(s, k)
    ensures InScope(t, k)
  {
  }

  function Recording(claim: Request, evidence: Record): Request
    requires claim.operation.ClaimIssue?
  {
    Request(RecordEvidence(claim.operation.issue, claim.operation.binding, evidence), "")
  }

  /** One more recording on an issue that is as it was claimed, but for its evidence. */
  lemma Recorded(states: seq<State>, requests: seq<Request>, claim: Request, evidence: Record)
    returns (longer: seq<State>, asked: seq<Request>)
    requires claim.operation.ClaimIssue? && IsRun(states, requests) && |states| == |requests| + 1
    requires var s, k := states[|requests|], claim.operation.issue;
             && InScope(s, k) && k in s.assignments
             && s.assignments[k].now == Claimed(claim).now.(evidence := s.assignments[k].now.evidence)
    ensures IsRun(longer, asked) && asked == requests + [Recording(claim, evidence)]
    ensures |longer| == |states| + 1 && longer[..|states|] == states
    ensures var s, t, k := states[|requests|], longer[|states|], claim.operation.issue;
            && InScope(t, k) && k in t.assignments
            && t.assignments[k].now == Claimed(claim).now.(evidence := evidence)
            && t.assignments[k].history == s.assignments[k].history
  {
    hide Commits, InScope;
    var s, r := states[|requests|], Recording(claim, evidence);
    assert !SupportUncertain(s.assignments[claim.operation.issue].now);
    RunExtends(states, requests, r);
    longer, asked := states + [Committed(s, r)], requests + [r];
    Shape(s, r);
    ScopeIsInHeader(s, longer[|states|], claim.operation.issue);
  }

  /** Evidence that is recorded over at once is gone: neither current nor in any event. */
  lemma EvidenceIsLost(header: Header, claim: Request, first: Record, second: Record)
    returns (states: seq<State>, requests: seq<Request>)
    requires Opens(header, claim) && first != second && first != map[]
    ensures IsRun(states, requests)
    ensures requests == [claim, Recording(claim, first), Recording(claim, second)]
    ensures var k := claim.operation.issue;
            && k in states[2].assignments && states[2].assignments[k].now.evidence == first
            && k in states[3].assignments && states[3].assignments[k].now.evidence == second
            && forall e :: e in states[3].assignments[k].history ==> e.previous.evidence != first
  {
    hide Commits, Admits, ValidHeader, InScope, ValidState;
    states, requests := Begun(header, claim);
    states, requests := Recorded(states, requests, claim, first);
    states, requests := Recorded(states, requests, claim, second);
  }

  /** After the claim the guards let every malformed reservation of a nonblank name through. */
  lemma MalformedReservationOccurs(header: Header, claim: Request, name: string, token: string)
    returns (states: seq<State>, requests: seq<Request>, r: Request)
    requires Opens(header, claim) && NonBlank(name) && !NonBlank(token)
    ensures IsRun(states, requests) && requests == [claim]
    ensures r.operation.Reserve? && r.operation.resource == name && r.operation.token == token
    ensures Admits(states[1], r) && Refused(states[1], r)
  {
    hide IsRun, InScope, ValidState, Admits, ValidHeader;
    states, requests := Begun(header, claim);
    var k := claim.operation.issue;
    MalformedReservationIsAdmitted(states[1], k, name, token, "", "");
    r := Request(Reserve(k, name, token, claim.operation.binding.head, "", ""), "");
  }

  function Retiring(claim: Request): Request
    requires claim.operation.ClaimIssue?
  {
    var a := Claimed(claim).now;
    Request(Retire(a.issue, a.binding, Receipt(a.binding, a.owner, true, "verified_clean", true, "reference")), "")
  }

  /** After the claim and a verified retirement the guards let every uncertain observation of the head through. */
  lemma UncertainAfterRetirementOccurs(header: Header, claim: Request, o: Observation)
    returns (states: seq<State>, requests: seq<Request>)
    requires Opens(header, claim)
    requires KnownFields(o) && ValidObservation(o) && o.status.Uncertain?
    requires o.issue == claim.operation.issue && o.head == claim.operation.binding.head
    ensures IsRun(states, requests) && requests == [claim, Retiring(claim)]
    ensures Admits(states[2], Request(ObserveMerge(o), "")) && Refused(states[2], Request(ObserveMerge(o), ""))
  {
    hide IsRun, Admits, InScope, ValidState, ValidHeader, ValidObservation, KnownFields;
    states, requests := Begun(header, claim);
    var r := Retiring(claim);
    RetiringIsAdmitted(states[1], claim);
    RunExtends(states, requests, r);
    states, requests := states + [Committed(states[1], r)], requests + [r];
    StatesAreValid(states, requests, 2);
    UncertainAfterRetirementIsAdmitted(states[2], claim.operation.issue, o);
  }

  lemma RetiringIsAdmitted(s: State, claim: Request)
    requires claim.operation.ClaimIssue? && s.resources == map[]
    requires var k := claim.operation.issue; InScope(s, k) && k in s.assignments && s.assignments[k] == Claimed(claim)
    ensures Targeted(s, Retiring(claim)) && Admits(s, Retiring(claim)) && !Refused(s, Retiring(claim))
  {
    hide InScope;
    Visible("reference");
    assert !SupportUncertain(Claimed(claim).now);
  }

  // ---------------------------------------------------------------- such a claim exists

  const SHA := "aaaaaaaaaaaaaaaaaaaaaaaaaaaaaaaaaaaaaaaa"

  lemma Visible(s: string)
    requires s != "" && !IsSpace(s[0])
    ensures NonBlank(s)
  {
  }

  lemma ShaIsSha()
    ensures IsSha(SHA)
  {
  }

  lemma LetterIsOnePiece(c: char)
    requires c != '/'
    ensures Split([c]) == [[c]]
  {
    var s := [c];
    assert s[1..] == "" && Split(s[1..]) == [""];
    assert [c] + "" == [c] && Split(s) == [[c] + ""] + [""][1..];
  }

  /** A relative file name of one letter may be claimed. */
  lemma LetterIsClaimable(c: char)
    requires 'a' <= c <= 'z'
    ensures IsClaimPath([c])
  {
    Visible([c]);
    LetterIsOnePiece(c);
    assert [[c]][1..] == [] && Components([]) == [];
    assert Components([[c]]) == [[c]] && [c][0] == c;
  }

  lemma LettersAreVisible()
    ensures forall s :: s in ["r", "c", "a", "t", "w", "/t", "b", "k"] ==> NonBlank(s)
  {
    forall s | s in ["r", "c", "a", "t", "w", "/t", "b", "k"]
      ensures NonBlank(s)
    {
      Visible(s);
    }
  }

  function SomeHeader(): Header {
    Header(REPOSITORY, MILESTONE, "r", "c", "a", [1], "rehearsal")
  }

  /** The claim of one file by one worker. */
  function SomeClaim(): Request {
    Request(ClaimIssue(1, Binding(SHA, SHA, "t"), Owner("w", "/t", "b"), Scope([['p']], [], ["k"], [])), "/t")
  }

  lemma SomeHeaderIsValid()
    ensures ValidHeader(SomeHeader())
  {
    hide NonBlank;
    LettersAreVisible();
  }

  lemma SomeSnapshotIsValid()
    ensures ValidAssignment(Claimed(SomeClaim()))
  {
    hide IsSpace, NonBlank, IsClaimPath, IsSha;
    LettersAreVisible();
    ShaIsSha();
    LetterIsClaimable('p');
  }

  lemma SomeClaimOpens()
    ensures Opens(SomeHeader(), SomeClaim())
  {
    hide NonBlank, ValidHeader, ValidAssignment;
    LettersAreVisible();
    SomeHeaderIsValid();
    SomeSnapshotIsValid();
  }
}
