/** When each reason that an assessment gives applies, read off the raw fields of the evidence. */
module Reasons {
  import opened Text
  import opened Json
  import opened Assessment
  import opened Readiness
  import opened Demands

  /** The receipt in this seat, if there is one of the present revision. */
  function Seated(a: Record, seat: Seat): Option<Record> {
    if IsKept(a, seat.key) && Kept(a).fields[seat.key].Obj? && Bound(Kept(a).fields[seat.key].fields, a)
    then Some(Kept(a).fields[seat.key].fields) else None
  }

  ghost predicate HasOpenFinding(name: string, review: Record, a: Record, o: Record) {
    && Get(review, FindingsKey).Arr?
    && exists i :: 0 <= i < |Get(review, FindingsKey).items|
         && Get(review, FindingsKey).items[i].Obj?
         && var f := Get(review, FindingsKey).items[i].fields;
            && Get(f, ResolvedKey) == Bool(false) && Get(f, PriorityKey).Int? && Get(f, PriorityKey).n <= 2
            && !(Get(f, PriorityKey).n == 2 && Tolerated(f, name, review, a, o))
  }

  predicate IsAboutSeat(r: Reason) {
    r.MissingRole? || r.StaleRole? || r.SelfReviewed? || r.RequiresChanges? || r.IncompleteRole? || r.OpenFindings?
  }

  /** Why a review of the merge is missing, stale, unfinished or against it. */
  ghost predicate SeatApplies(a: Record, o: Record, r: Reason)
    requires IsAboutSeat(r)
  {
    var seat := SeatOf(r.role);
    var review := Seated(a, seat);
    match r
    case MissingRole(_) => !IsKept(a, seat.key)
    case StaleRole(_) =>
      IsKept(a, seat.key) && Kept(a).fields[seat.key].Obj? && !Bound(Kept(a).fields[seat.key].fields, a)
    case SelfReviewed(_) =>
      review.Some? && seat.independent && Get(review.value, ReviewerIdKey) == Get(a, WorkerIdKey)
    case RequiresChanges(_) =>
      review.Some? && Get(review.value, VerdictKey) in {Str("changes_needed"), Str("blocked")}
    case IncompleteRole(_) =>
      review.Some? && Get(review.value, VerdictKey) !in {Str("changes_needed"), Str("blocked"), Str("ready")}
    case OpenFindings(_) => review.Some? && HasOpenFinding(seat.name, review.value, a, o)
  }

  predicate IsAboutCheck(r: Reason) {
    r.MissingCheck? || r.StaleCheck? || r.FailedCheck? || r.UnpassedCheck?
  }

  /** The recorded check at position i has this name. */
  predicate IsRecord(a: Record, name: string, i: int) {
    && Recorded(a).Arr? && 0 <= i < |Recorded(a).items|
    && Recorded(a).items[i].Obj? && Get(Recorded(a).items[i].fields, NameKey) == Str(name)
  }

  /** What is wrong with the recorded check at position i, if anything is recorded there. */
  predicate GivesReason(a: Record, r: Reason, i: int)
    requires IsAboutCheck(r) && IsRecord(a, r.name, i)
  {
    var check := Recorded(a).items[i].fields;
    match r
    case MissingCheck(_) => false
    case StaleCheck(_) => !Counts(check, a)
    case FailedCheck(_) => Counts(check, a) && Concludes(check, FAILURES)
    case UnpassedCheck(_) => Counts(check, a) && !Concludes(check, FAILURES) && !Succeeds(check)
  }

  ghost predicate CheckApplies(a: Record, r: Reason)
    requires IsAboutCheck(r)
  {
    && Get(a, RequiredChecksKey).Arr? && Str(r.name) in Get(a, RequiredChecksKey).items
    && if r.MissingCheck? then forall i :: !IsRecord(a, r.name, i)
       else exists i :: IsRecord(a, r.name, i) && GivesReason(a, r, i)
  }

  ghost predicate HasUncertainSupport(supports: Json) {
    && supports.Obj?
    && exists k :: k in supports.fields
         && supports.fields[k].Obj? && Get(supports.fields[k].fields, StatusKey) == Str("uncertain")
  }

  /** Why a merge is barred or wanting, reason by reason; what makes evidence malformed is said above. */
  ghost predicate Applies(a: Record, o: Record, r: Reason)
    requires !r.Malformed?
  {
    if IsAboutSeat(r) then SeatApplies(a, o, r)
    else if IsAboutCheck(r) then CheckApplies(a, r)
    else
      match r
      case AssignmentRetired => Get(a, ClaimStateKey) == Str("retired")
      case SupportingUncertain => HasUncertainSupport(OrElse(a, PrerequisiteMergesKey, Obj(map[])))
      case HasBlockers => Get(a, BlockersKey).Arr? && |Get(a, BlockersKey).items| > 0
      case MergeConflict => Get(o, MergeableKey) == Bool(false)
      case ThreadsOpen => Get(o, UnresolvedReviewThreadsKey).Int? && Get(o, UnresolvedReviewThreadsKey).n > 0
      case ScopeChanged => !Bound(o, a)
      case DraftOrUnknown => Get(o, DraftKey) != Bool(false)
      case MergeabilityUnknown => Get(o, MergeableKey) !in {Bool(true), Bool(false)}
      case ThreadsUnknown => Get(o, UnresolvedReviewThreadsKey) == Null
      case ChecksUnreconciled =>
        var required, listed := Get(a, RequiredChecksKey), Listed(o);
        exists name :: (required.Arr? && Str(name) in required.items) != (listed.Arr? && Str(name) in listed.items)
      case RabbitMissing => !IsKept(a, CoderabbitKey)
      case RabbitStale =>
        && IsKept(a, CoderabbitKey) && Kept(a).fields[CoderabbitKey].Obj?
        && !Bound(Kept(a).fields[CoderabbitKey].fields, a)
      case RabbitUnsettled =>
        && IsKept(a, CoderabbitKey) && Kept(a).fields[CoderabbitKey].Obj?
        && Bound(Kept(a).fields[CoderabbitKey].fields, a) && !EndedWell(Kept(a).fields[CoderabbitKey].fields, a)
  }

  lemma OpenFindingExactly(role: Role, review: Record, a: Record, o: Record)
    ensures HasOpenFinding(Name(role), review, a, o) <==> FindingsOpen(Context(Name(role), review, a, o))
  {
    hide Tolerated, Accepted;
    if Get(review, FindingsKey).Arr? {
      var items := Get(review, FindingsKey).items;
      forall i | 0 <= i < |items| && items[i].Obj? && Get(items[i].fields, PriorityKey).Int?
        ensures Accepted(items[i].fields, Context(Name(role), review, a, o)) <==>
                  Get(items[i].fields, PriorityKey).n == 2 && Tolerated(items[i].fields, Name(role), review, a, o)
      {
        ToleratedExactly(items[i].fields, Name(role), review, a, o);
      }
    }
  }

  lemma SeatReasonExactly(a: Record, o: Record, r: Reason)
    requires IsAboutSeat(r)
    ensures RoleHolds(a, o, r.role, r) <==> SeatApplies(a, o, r)
  {
    hide HasOpenFinding, FindingsOpen, Bound, Current, IsText;
    SeatsAreRoles();
    var key := Receipt(r.role);
    if IsKept(a, key) && Kept(a).fields[key].Obj? {
      BoundIsCurrent(Kept(a).fields[key].fields, a);
      OpenFindingExactly(r.role, Kept(a).fields[key].fields, a, o);
    }
  }

  lemma RecordReasonExactly(a: Record, r: Reason, i: nat)
    requires IsAboutCheck(r) && ChecksListed(a) && RequiresCheck(a, r.name) && IsRecord(a, r.name, i)
    ensures CheckHolds(a, r.name, r) <==> GivesReason(a, r, i)
  {
    hide IsText, Counts, Concludes, FreshCheck, Succeeds, CheckPassed, CheckFailed, CheckOf, ChecksListed;
    RecordedExactly(a, i);
    CountsExactly(Recorded(a).items[i].fields, a, r.name);
  }

  lemma NoRecordIsMissing(a: Record, r: Reason)
    requires IsAboutCheck(r) && forall i :: !IsRecord(a, r.name, i)
    ensures CheckHolds(a, r.name, r) <==> r.MissingCheck?
  {
    hide CheckOf, CheckResult, FreshCheck, IsRecord;
    NamedIsRecorded(a, r.name);
  }

  lemma NamedIsRecorded(a: Record, name: string)
    ensures CheckOf(a, name).Some? ==> exists i :: IsRecord(a, name, i)
  {
    if CheckOf(a, name).Some? {
      var i :| 0 <= i < |Checks(a).items| && IsNamed(Checks(a).items[i], name);
      assert IsRecord(a, name, i);
    }
  }

  lemma CheckReasonExactly(a: Record, r: Reason)
    requires IsAboutCheck(r) && ChecksListed(a)
    ensures RequiresCheck(a, r.name) && CheckHolds(a, r.name, r) <==> CheckApplies(a, r)
  {
    hide IsRecord, GivesReason, CheckHolds, ChecksListed;
    if RequiresCheck(a, r.name) {
      forall i | IsRecord(a, r.name, i)
        ensures CheckHolds(a, r.name, r) <==> GivesReason(a, r, i)
        ensures r.MissingCheck? ==> !GivesReason(a, r, i)
      {
        RecordHasIndex(a, r.name, i);
        RecordReasonExactly(a, r, i);
        MissingGivesNone(a, r, i);
      }
      if forall i :: !IsRecord(a, r.name, i) {
        NoRecordIsMissing(a, r);
      }
    }
  }

  lemma RecordHasIndex(a: Record, name: string, i: int)
    requires IsRecord(a, name, i)
    ensures i >= 0
  {
  }

  lemma MissingGivesNone(a: Record, r: Reason, i: int)
    requires IsAboutCheck(r) && IsRecord(a, r.name, i)
    ensures r.MissingCheck? ==> !GivesReason(a, r, i)
  {
  }

  predicate IsAboutBot(r: Reason) {
    r.RabbitMissing? || r.RabbitStale? || r.RabbitUnsettled?
  }

  lemma OtherReasonExactly(a: Record, o: Record, r: Reason)
    requires !r.Malformed? && !IsAboutSeat(r) && !IsAboutCheck(r) && !IsAboutBot(r)
    ensures (AssignmentHolds(a, o, r) || PullRequestHolds(o, r) || (r.ChecksUnreconciled? && Unreconciled(a, o))) <==>
              Applies(a, o, r)
  {
    hide IsText, Current, Bound, RabbitSettled, EndedWell;
    BoundIsCurrent(o, a);
  }

  lemma BotReasonExactly(a: Record, o: Record, r: Reason)
    requires IsAboutBot(r)
    ensures BotHolds(a, r) <==> Applies(a, o, r)
  {
    hide IsText, Current, Bound, RabbitSettled, EndedWell;
    if IsKept(a, CoderabbitKey) && Kept(a).fields[CoderabbitKey].Obj? {
      BoundIsCurrent(Kept(a).fields[CoderabbitKey].fields, a);
      RunExactly(a, Kept(a).fields[CoderabbitKey].fields);
    }
  }

  /** No two kinds of evidence give the same reason. */
  lemma ReasonsAreApart(a: Record, o: Record, r: Reason)
    requires !r.Malformed?
    ensures Holds(a, o, r) <==>
              if IsAboutSeat(r) then RoleHolds(a, o, r.role, r)
              else if IsAboutCheck(r) then RequiresCheck(a, r.name) && CheckHolds(a, r.name, r)
              else if IsAboutBot(r) then BotHolds(a, r)
              else AssignmentHolds(a, o, r) || PullRequestHolds(o, r) || (r.ChecksUnreconciled? && Unreconciled(a, o))
  {
    hide RoleHolds, CheckHolds, RequiresCheck, Unreconciled, SupportingIsUncertain, Current, RabbitSettled;
    RoleReasonsAreApart(a, o, r);
    CheckReasonsAreApart(a, r);
    if IsAboutSeat(r) {
      AllRoles(r.role);
    }
  }

  lemma RoleReasonsAreApart(a: Record, o: Record, r: Reason)
    ensures forall role :: RoleHolds(a, o, role, r) ==> IsAboutSeat(r) && r.role == role
  {
    hide FindingsOpen;
  }

  lemma CheckReasonsAreApart(a: Record, r: Reason)
    ensures forall name :: CheckHolds(a, name, r) ==> IsAboutCheck(r) && r.name == name
  {
    hide CheckOf, Graded;
  }

  /** Each reason is given exactly when it applies. */
  lemma ReasonExactly(a: Record, o: Record, r: Reason)
    requires !r.Malformed? && (IsAboutCheck(r) ==> ChecksListed(a))
    ensures Holds(a, o, r) <==> Applies(a, o, r)
  {
    hide Holds, RoleHolds, CheckHolds, SeatApplies, CheckApplies, RequiresCheck, AssignmentHolds, PullRequestHolds,
         BotHolds, Unreconciled, ChecksListed;
    ReasonsAreApart(a, o, r);
    if IsAboutSeat(r) {
      SeatReasonExactly(a, o, r);
    } else if IsAboutCheck(r) {
      CheckReasonExactly(a, r);
    } else if IsAboutBot(r) {
      BotReasonExactly(a, o, r);
    } else {
      OtherReasonExactly(a, o, r);
    }
  }

  /** The search for the finding's acceptance meets a record that cannot be read, or that speaks of the finding without
      naming its human. */
  ghost predicate Unsearchable(finding: Record, name: string, review: Record, a: Record, o: Record) {
    var risks := OrElse(o, HumanRiskAcceptancesKey, Arr([]));
    || !risks.Arr?
    || exists i :: 0 <= i < |risks.items|
         && (!risks.items[i].Obj? || (Speaks(risks.items[i], finding, name, review, a) && !Names(risks.items[i])))
         && forall j :: 0 <= j < i ==> risks.items[j].Obj? && !Speaks(risks.items[j], finding, name, review, a)
  }

  lemma UnsearchableExactly(finding: Record, name: string, review: Record, a: Record, o: Record)
    requires Get(finding, PriorityKey).Int?
    ensures RiskMalformed(finding, Context(name, review, a, o)) <==>
              Get(finding, PriorityKey).n == 2 && Unsearchable(finding, name, review, a, o)
  {
    hide Speaks, Matches, NonBlank;
    var c, risks := Context(name, review, a, o), OrElse(o, HumanRiskAcceptancesKey, Arr([]));
    forall item
      ensures Speaks(item, finding, name, review, a) <==> item.Obj? && Matches(item.fields, finding, c)
    {
      SpeaksExactly(item, finding, name, review, a, o);
    }
    if risks.Arr? && Get(finding, PriorityKey).n == 2 && Unsearchable(finding, name, review, a, o) {
      var i :| 0 <= i < |risks.items|
        && (!risks.items[i].Obj? || (Speaks(risks.items[i], finding, name, review, a) && !Names(risks.items[i])))
        && forall j :: 0 <= j < i ==> risks.items[j].Obj? && !Speaks(risks.items[j], finding, name, review, a);
      assert FirstDecision(Risks(o).items, i, finding, c);
    }
  }

  /** Only an unresolved finding of priority 2 has its acceptances read at all. */
  lemma UnreadableFindingExactly(items: seq<Json>, i: nat, name: string, review: Record, a: Record, o: Record)
    requires i < |items|
    ensures FindingMalformed(items, i, Context(name, review, a, o)) <==>
              || !items[i].Obj?
              || (var f := items[i].fields;
                  var id, priority, resolved := Get(f, IdKey), Get(f, PriorityKey), Get(f, ResolvedKey);
                  || !IsText(id) || (exists j :: 0 <= j < i && items[j].Obj? && Get(items[j].fields, IdKey) == id)
                  || !priority.Int? || priority.n < 0 || priority.n > 3 || !resolved.Bool?
                  || (!resolved.b && priority.n == 2 && Unsearchable(f, name, review, a, o)))
  {
    hide Unsearchable, RiskMalformed, NonBlank;
    if items[i].Obj? && Get(items[i].fields, PriorityKey).Int? {
      UnsearchableExactly(items[i].fields, name, review, a, o);
    }
  }
}
