/** What a ready verdict means, and what it can never rest on. */
module Readiness {
  import opened Text
  import opened Json
  import opened Assessment
  import opened Assessor

  // ---------------------------------------------------------------- the meaning of ready

  /** Resolved, of the lowest priority, or of priority 2 with its bounded risk accepted by a human. */
  ghost predicate Settled(items: seq<Json>, i: nat, c: Context)
    requires i < |items|
  {
    && items[i].Obj? && FindingShape(items[i].fields)
    && (forall j :: 0 <= j < i ==> !SameId(items[j], items[i]))
    && var f := items[i].fields;
    && (Get(f, ResolvedKey) == Bool(true) || Get(f, PriorityKey) == Int(3)
        || (Get(f, PriorityKey) == Int(2) && Accepted(f, c)))
  }

  /** A current, ready receipt with every material finding settled. */
  ghost predicate ReviewPasses(c: Context, role: Role) {
    && IsText(Get(c.review, ReferenceKey))
    && Get(c.review, VerdictKey) == Str("ready")
    && (IsReview(role) ==>
          && IsText(Get(c.review, ReviewerIdKey)) && IsText(Get(c.a, WorkerIdKey))
          && Get(c.review, ReviewerIdKey) != Get(c.a, WorkerIdKey))
    && Get(c.review, FindingsKey).Arr?
    && forall i: nat :: i < |Get(c.review, FindingsKey).items| ==> Settled(Get(c.review, FindingsKey).items, i, c)
  }

  ghost predicate CheckPasses(a: Record, name: string) {
    var check := CheckOf(a, name);
    && check.Some? && FreshCheck(check.value, a)
    && IsText(Get(check.value, ReferenceKey)) && CheckPassed(check.value, IsBot(name))
  }

  ghost predicate AssignmentReady(a: Record, o: Record) {
    && IsCount(Get(a, IssueKey), 1)
    && IsShaText(Get(a, BaseShaKey)) && IsShaText(Get(a, HeadShaKey)) && IsText(Get(a, IssueUpdatedAtKey))
    && Current(o, a)
    && Get(a, ClaimStateKey) != Str("retired")
    && SupportingOf(a).Obj?
    && (forall k :: k in SupportingOf(a).fields ==>
          SupportingOf(a).fields[k].Obj? && !IsUncertain(SupportingOf(a).fields[k]))
    && Get(a, BlockersKey) == Arr([])
  }

  predicate PullRequestReady(o: Record) {
    && Get(o, DraftKey) == Bool(false)
    && Get(o, MergeableKey) == Bool(true)
    && Get(o, UnresolvedReviewThreadsKey) == Int(0)
  }

  ghost predicate ReviewsReady(a: Record, o: Record) {
    && Evidence(a).Obj?
    && forall role :: role in ROLES ==> Live(a, role) && ReviewPasses(ContextOf(a, o, role), role)
  }

  ghost predicate ChecksReady(a: Record, o: Record) {
    && RequiredNames(a) && AreTexts(ObservedNames(o)) && ChecksListed(a)
    && (forall name :: RequiresCheck(a, name) <==> Str(name) in ObservedNames(o).items)
    && (forall name :: RequiresCheck(a, name) ==> CheckPasses(a, name))
  }

  ghost predicate BotReady(a: Record) {
    && Has(a, CoderabbitKey) && Item(a, CoderabbitKey).Obj?
    && var rabbit := Item(a, CoderabbitKey).fields;
    && Current(rabbit, a) && !RabbitMalformed(a, rabbit) && RabbitSettled(a, rabbit)
  }

  ghost predicate ReadyToMerge(a: Record, o: Record) {
    && AssignmentReady(a, o) && PullRequestReady(o)
    && ReviewsReady(a, o) && ChecksReady(a, o) && BotReady(a)
  }

  lemma AssignmentClear(a: Record, o: Record)
    ensures !AssignmentMalformed(a) && (forall r :: !AssignmentHolds(a, o, r)) <==> AssignmentReady(a, o)
  {
    if forall r :: !AssignmentHolds(a, o, r) {
      assert !AssignmentHolds(a, o, ScopeChanged) && !AssignmentHolds(a, o, AssignmentRetired);
      assert !AssignmentHolds(a, o, SupportingUncertain) && !AssignmentHolds(a, o, HasBlockers);
    }
  }

  lemma PullRequestClear(o: Record)
    ensures !ThreadsMalformed(o) && (forall r :: !PullRequestHolds(o, r)) <==> PullRequestReady(o)
  {
    if forall r :: !PullRequestHolds(o, r) {
      assert !PullRequestHolds(o, MergeConflict) && !PullRequestHolds(o, ThreadsOpen);
      assert !PullRequestHolds(o, DraftOrUnknown) && !PullRequestHolds(o, MergeabilityUnknown);
      assert !PullRequestHolds(o, ThreadsUnknown);
    }
  }

  /** A finding is settled exactly when it is neither malformed nor open. */
  lemma SettledExactly(items: seq<Json>, i: nat, c: Context)
    requires i < |items|
    ensures Settled(items, i, c) <==> !FindingMalformed(items, i, c) && !OpenFinding(items[i], c)
  {
    if items[i].Obj? && FindingShape(items[i].fields) {
      AcceptedIsWellFormed(items[i].fields, c);
    }
  }

  lemma AcceptedIsWellFormed(finding: Record, c: Context)
    ensures Accepted(finding, c) ==> !RiskMalformed(finding, c)
  {
    if Accepted(finding, c) {
      var items := Risks(c.o).items;
      var i: nat :| FirstDecision(items, i, finding, c) && items[i].Obj? && Signed(items[i].fields);
      assert forall j: nat :: FirstDecision(items, j, finding, c) ==> j == i;
    }
  }

  lemma ReadyIsNoRefusal()
    ensures !Refuses(Str("ready"))
  {
  }

  lemma LiveClear(c: Context, role: Role)
    ensures ReviewPasses(c, role) <==>
              IsText(Get(c.review, ReferenceKey)) && !LiveMalformed(c, role) && forall r :: !LiveHolds(c, role, r)
  {
    hide Settled, FindingMalformed, OpenFinding, Refuses;
    ReadyIsNoRefusal();
    var findings := Get(c.review, FindingsKey);
    if findings.Arr? {
      forall i: nat | i < |findings.items|
        ensures Settled(findings.items, i, c) <==>
                  !FindingMalformed(findings.items, i, c) && !OpenFinding(findings.items[i], c)
      {
        SettledExactly(findings.items, i, c);
      }
    }
    if forall r :: !LiveHolds(c, role, r) {
      assert !LiveHolds(c, role, SelfReviewed(role)) && !LiveHolds(c, role, RequiresChanges(role));
      assert !LiveHolds(c, role, IncompleteRole(role)) && !LiveHolds(c, role, OpenFindings(role));
    }
  }

  lemma RoleClear(a: Record, o: Record, role: Role)
    requires Evidence(a).Obj?
    ensures !RoleMalformed(a, o, role) && (forall r :: !RoleHolds(a, o, role, r)) <==>
              Live(a, role) && ReviewPasses(ContextOf(a, o, role), role)
  {
    hide LiveMalformed, LiveHolds, ReviewPasses;
    if Live(a, role) {
      var c := ContextOf(a, o, role);
      LiveClear(c, role);
      if forall r :: !RoleHolds(a, o, role, r) {
        forall r
          ensures !LiveHolds(c, role, r)
        {
          assert !RoleHolds(a, o, role, r);
          if r.MissingRole? || r.StaleRole? {
            NotALiveReason(c, role, r);
          }
        }
      }
    } else {
      assert RoleHolds(a, o, role, MissingRole(role)) || RoleHolds(a, o, role, StaleRole(role))
             || RoleMalformed(a, o, role);
    }
  }

  lemma NotALiveReason(c: Context, role: Role, r: Reason)
    requires r.MissingRole? || r.StaleRole?
    ensures !LiveHolds(c, role, r)
  {
  }

  lemma ReviewsClear(a: Record, o: Record)
    requires Evidence(a).Obj?
    ensures ReviewsReady(a, o) <==>
              (forall role :: role in ROLES ==> !RoleMalformed(a, o, role)) && forall r :: !RolesHold(a, o, r)
  {
    hide RoleMalformed, RoleHolds, ReviewPasses;
    forall role | role in ROLES
      ensures !RoleMalformed(a, o, role) && (forall r :: !RoleHolds(a, o, role, r)) <==>
                Live(a, role) && ReviewPasses(ContextOf(a, o, role), role)
    {
      RoleClear(a, o, role);
    }
    if forall r :: !RolesHold(a, o, r) {
      forall role, r | role in ROLES
        ensures !RoleHolds(a, o, role, r)
      {
        assert !RolesHold(a, o, r);
      }
    }
  }

  lemma CheckClear(a: Record, name: string)
    ensures !Unreadable(a, name) && (forall r :: !CheckHolds(a, name, r)) <==> CheckPasses(a, name)
  {
    hide CheckPassed, CheckFailed, CheckResult;
    if forall r :: !CheckHolds(a, name, r) {
      assert !CheckHolds(a, name, MissingCheck(name)) && !CheckHolds(a, name, StaleCheck(name));
      assert !CheckHolds(a, name, FailedCheck(name)) && !CheckHolds(a, name, UnpassedCheck(name));
    }
  }

  lemma ChecksClear(a: Record, o: Record)
    ensures !ChecksMalformed(a, o) && (forall r :: !ChecksHold(a, o, r)) <==> ChecksReady(a, o)
  {
    hide Unreadable, CheckHolds, CheckPasses;
    forall name
      ensures !Unreadable(a, name) && (forall r :: !CheckHolds(a, name, r)) <==> CheckPasses(a, name)
    {
      CheckClear(a, name);
    }
    if forall r :: !ChecksHold(a, o, r) {
      assert !ChecksHold(a, o, ChecksUnreconciled);
      forall name, r | RequiresCheck(a, name)
        ensures !CheckHolds(a, name, r)
      {
        assert !ChecksHold(a, o, r);
      }
    }
    if ChecksReady(a, o) {
      NotAboutOneCheck(a);
    }
  }

  lemma NotAboutOneCheck(a: Record)
    ensures forall name :: !CheckHolds(a, name, ChecksUnreconciled)
  {
  }

  lemma BotClear(a: Record)
    requires Evidence(a).Obj?
    ensures !BotMalformed(a) && (forall r :: !BotHolds(a, r)) <==> BotReady(a)
  {
    hide RabbitMalformed, RabbitSettled;
    if forall r :: !BotHolds(a, r) {
      assert !BotHolds(a, RabbitMissing) && !BotHolds(a, RabbitStale) && !BotHolds(a, RabbitUnsettled);
    }
  }

  /** The assessment says ready exactly when everything that a merge needs is on record. */
  lemma ReadyExactly(a: Record, o: Record)
    ensures VerdictOf(a, o).Ready? <==> ReadyToMerge(a, o)
  {
    hide AssignmentHolds, PullRequestHolds, RolesHold, ChecksHold, BotHolds;
    hide AssignmentMalformed, ThreadsMalformed, RoleMalformed, ChecksMalformed, BotMalformed;
    hide AssignmentReady, PullRequestReady, ReviewsReady, ChecksReady, BotReady;
    AssignmentClear(a, o);
    PullRequestClear(o);
    ChecksClear(a, o);
    if Evidence(a).Obj? {
      ReviewsClear(a, o);
      BotClear(a);
    } else {
      NoEvidence(a, o);
    }
    assert Holds(a, o, Malformed) <== IsMalformed(a, o);
    forall r | !Holds(a, o, r)
      ensures !AssignmentHolds(a, o, r) && !PullRequestHolds(o, r) && !RolesHold(a, o, r)
      ensures !ChecksHold(a, o, r) && !BotHolds(a, r)
    {
    }
  }

  lemma NoEvidence(a: Record, o: Record)
    requires !Evidence(a).Obj?
    ensures !ReviewsReady(a, o)
  {
  }

  // ---------------------------------------------------------------- what ready never rests on

  /** Evidence that made one revision ready never makes another one ready, whatever is observed. */
  lemma NoReuseAcrossRevisions(a: Record, o: Record, key: Key, value: Json, other: Record)
    requires ReadyToMerge(a, o)
    requires key == BaseShaKey || key == HeadShaKey || key == IssueUpdatedAtKey
    requires !Same(value, Get(a, key))
    ensures !ReadyToMerge(a[key := value], other)
  {
    hide ReviewPasses, ChecksReady, BotReady, AssignmentReady, PullRequestReady, Same;
    var b := a[key := value];
    assert Acceptance in ROLES by { assert ROLES[0] == Acceptance; }
    assert Evidence(b) == Evidence(a);
    if ReviewsReady(b, other) {
      var receipt := Item(a, AcceptanceKey).fields;
      assert Live(a, Acceptance) && Live(b, Acceptance) && Receipt(Acceptance) == AcceptanceKey;
      SameSymmetric(Get(receipt, key), value);
      SameTransitive(value, Get(receipt, key), Get(a, key));
      assert false;
    }
  }

  /** An unresolved finding of priority 0 or 1 in a current receipt blocks, whatever any human accepted. */
  lemma SevereFindingBlocks(a: Record, o: Record, role: Role, i: nat)
    requires Evidence(a).Obj? && Live(a, role) && Get(Item(a, Receipt(role)).fields, FindingsKey).Arr?
    requires i < |Get(Item(a, Receipt(role)).fields, FindingsKey).items|
    requires var item := Get(Item(a, Receipt(role)).fields, FindingsKey).items[i];
             item.Obj? && Material(item.fields) && Get(item.fields, PriorityKey).n <= 1
    ensures VerdictOf(a, o).Blocked?
  {
    hide FindingMalformed;
    var c := ContextOf(a, o, role);
    var item := Get(c.review, FindingsKey).items[i];
    assert OpenFinding(item, c) && FindingsOpen(c);
    assert LiveHolds(c, role, OpenFindings(role));
    assert RoleHolds(a, o, role, OpenFindings(role));
    assert role in ROLES by { AllRoles(role); }
    assert RolesHold(a, o, OpenFindings(role));
    assert IsBlocking(OpenFindings(role)) && Holds(a, o, OpenFindings(role));
  }

  lemma AllRoles(role: Role)
    ensures role in ROLES
  {
    assert ROLES[0] == Acceptance && ROLES[1] == Documentation && ROLES[2] == CodeReview && ROLES[3] == DxReview;
  }

  // ---------------------------------------------------------------- supporting pull requests

  /** The assignment as a supporting pull request is assessed: no blockers, and the packet's own evidence. */
  function Substituted(a: Record, evidence: Json): Record {
    a[BlockersKey := Arr([])][EvidenceKey := evidence]
  }

  /** The scope review covers the exact boundary and every deferred blocker, independently and ready. */
  predicate ScopeReviewed(a: Record, packet: Record, review: Record) {
    && Current(review, a)
    && Same(Get(review, ScopeKey), Get(packet, ScopeKey))
    && Same(Get(review, RemainingAcceptanceKey), Get(packet, RemainingAcceptanceKey))
    && Same(Get(review, DeferredBlockersKey), Get(a, BlockersKey))
    && IsText(Get(review, ReferenceKey)) && IsText(Get(review, DependencyRationaleKey))
    && Get(review, VerdictKey) == Str("ready")
    && IsText(Get(review, ReviewerIdKey)) && Get(review, ReviewerIdKey) != Get(a, WorkerIdKey)
  }

  predicate NamesPacket(receipt: Json, packet: Record) {
    && receipt.Obj?
    && Same(Get(receipt.fields, PrKey), Get(packet, PrKey))
    && Same(Get(receipt.fields, ScopeKey), Get(packet, ScopeKey))
  }

  predicate ReceiptsNamePacket(evidence: Record, packet: Record) {
    forall role :: role in ROLES ==> NamesPacket(Get(evidence, Receipt(role)), packet)
  }

  predicate ObservesPacket(observed: Record, packet: Record) {
    Same(Get(observed, PrKey), Get(packet, PrKey)) && Get(observed, ClosingIssuesKey) == Arr([])
  }

  predicate PacketShape(packet: Record) {
    && IsCount(Get(packet, PrKey), 1) && IsText(Get(packet, ScopeKey))
    && AreTexts(Get(packet, RemainingAcceptanceKey)) && Get(packet, RemainingAcceptanceKey) != Arr([])
    && Get(packet, ScopeReviewKey).Obj? && Get(packet, EvidenceKey).Obj? && Get(packet, ObservationKey).Obj?
  }

  predicate MainMergeOpen(a: Record) {
    Get(a, MergeStateKey) != Str("uncertain") && Get(a, MergeStateKey) != Str("merged")
  }

  function ScopeContext(a: Record, packet: Record): Context
    requires PacketShape(packet)
  {
    Context("scope_review", Get(packet, ScopeReviewKey).fields, a, Get(packet, ObservationKey).fields)
  }

  /** Everything that is required of the packet itself. */
  ghost predicate PacketAccepted(a: Record, packet: Record) {
    && PacketShape(packet)
    && ScopeReviewed(a, packet, Get(packet, ScopeReviewKey).fields)
    && ReceiptsNamePacket(Get(packet, EvidenceKey).fields, packet)
    && ObservesPacket(Get(packet, ObservationKey).fields, packet)
    && MainMergeOpen(a)
    && !FindingsMalformed(ScopeContext(a, packet)) && !FindingsOpen(ScopeContext(a, packet))
  }

  method AssessPrerequisite(a: Record, packet: Record) returns (verdict: Grade)
    ensures verdict == if PacketAccepted(a, packet)
                       then VerdictOf(Substituted(a, Get(packet, EvidenceKey)), Get(packet, ObservationKey).fields)
                       else Blocked
  {
    hide VerdictOf, FindingsMalformed, FindingsOpen;
    if !PacketShape(packet) || !ScopeReviewed(a, packet, Get(packet, ScopeReviewKey).fields) {
      return Blocked;
    }
    var evidence := Get(packet, EvidenceKey).fields;
    for i := 0 to |ROLES|
      invariant forall role :: role in ROLES[..i] ==> NamesPacket(Get(evidence, Receipt(role)), packet)
    {
      assert ROLES[..i + 1] == ROLES[..i] + [ROLES[i]];
      if !NamesPacket(Get(evidence, Receipt(ROLES[i])), packet) {
        assert ROLES[i] in ROLES;
        return Blocked;
      }
    }
    assert ROLES[..|ROLES|] == ROLES;
    var observed := Get(packet, ObservationKey).fields;
    if !ObservesPacket(observed, packet) || !MainMergeOpen(a) {
      return Blocked;
    }
    var findings := FindingBlocks(ScopeContext(a, packet));
    if !findings.No? {
      return Blocked;
    }
    var assessed := AssessMerge(Substituted(a, Obj(evidence)), observed);
    return assessed.verdict;
  }

  /** A ready supporting pull request is ready in its own right, names itself in every receipt and closes nothing. */
  lemma SupportingReady(a: Record, packet: Record)
    requires PacketAccepted(a, packet)
    requires VerdictOf(Substituted(a, Get(packet, EvidenceKey)), Get(packet, ObservationKey).fields).Ready?
    ensures var observed, evidence := Get(packet, ObservationKey).fields, Get(packet, EvidenceKey).fields;
            && ReadyToMerge(Substituted(a, Obj(evidence)), observed)
            && Current(observed, a)
            && Same(Get(Get(packet, ScopeReviewKey).fields, DeferredBlockersKey), Get(a, BlockersKey))
            && Get(observed, ClosingIssuesKey) == Arr([])
            && (forall role :: role in ROLES ==>
                  && NamesPacket(Get(evidence, Receipt(role)), packet)
                  && Current(Get(evidence, Receipt(role)).fields, a))
            && MainMergeOpen(a)
            && Get(a, ClaimStateKey) != Str("retired")
            && SupportingOf(a).Obj?
            && (forall k :: k in SupportingOf(a).fields ==> !IsUncertain(SupportingOf(a).fields[k]))
  {
    hide VerdictOf, FindingsMalformed, FindingsOpen, ReviewPasses, ChecksReady, BotReady, Same;
    var observed, evidence := Get(packet, ObservationKey).fields, Get(packet, EvidenceKey);
    var b := Substituted(a, evidence);
    ReadyExactly(b, observed);
    assert AssignmentReady(b, observed) && ReviewsReady(b, observed);
    assert SupportingOf(b) == SupportingOf(a) && Get(b, ClaimStateKey) == Get(a, ClaimStateKey);
    SameBinding(a, evidence);
    forall role | role in ROLES
      ensures NamesPacket(Get(evidence.fields, Receipt(role)), packet)
      ensures Current(Get(evidence.fields, Receipt(role)).fields, a)
    {
      assert Live(b, role);
    }
  }

  lemma SameBinding(a: Record, evidence: Json)
    ensures forall x :: Current(x, Substituted(a, evidence)) <==> Current(x, a)
  {
    var b := Substituted(a, evidence);
    assert Get(b, BaseShaKey) == Get(a, BaseShaKey) && Get(b, HeadShaKey) == Get(a, HeadShaKey);
    assert Get(b, IssueUpdatedAtKey) == Get(a, IssueUpdatedAtKey);
  }
}
