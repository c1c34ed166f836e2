/** What bars a merge and what it still wants, read off the raw fields of the evidence, and that the assessment says
    exactly that. Nothing here speaks in terms of the assessor's own tests. */
module Demands {
  import opened Text
  import opened Json
  import opened Assessment
  import opened Readiness

  // ---------------------------------------------------------------- reading

  function OrElse(record: Record, key: Key, absent: Json): Json {
    if key in record then record[key] else absent
  }

  function Kept(a: Record): Json {
    OrElse(a, EvidenceKey, Obj(map[]))
  }

  predicate IsKept(a: Record, key: Key) {
    Kept(a).Obj? && key in Kept(a).fields
  }

  /** The record was taken at the assignment's own base, head and issue revision. */
  predicate Bound(x: Record, a: Record) {
    forall key :: key in {BaseShaKey, HeadShaKey, IssueUpdatedAtKey} ==> Same(Get(x, key), Get(a, key))
  }

  /** A receipt that a merge needs: its name, its field, and whether the worker may not write it. */
  datatype Seat = Seat(name: string, key: Key, independent: bool)

  const SEATS := [
    Seat("acceptance", AcceptanceKey, false), Seat("documentation", DocumentationKey, false),
    Seat("code_review", CodeReviewKey, true), Seat("dx_review", DxReviewKey, true)]

  predicate Texts(j: Json) {
    j.Arr? && forall i :: 0 <= i < |j.items| ==> IsText(j.items[i])
  }

  ghost predicate UniqueTexts(j: Json) {
    Texts(j) && forall i, k :: 0 <= i < k < |j.items| ==> j.items[i] != j.items[k]
  }

  /** Case folding works character by character. */
  lemma {:induction false} FoldsByCharacter(s: string, t: string)
    ensures Fold(s + t) == Fold(s) + Fold(t)
  {
    if s != "" {
      FoldsByCharacter(s[1..], t);
      assert (s + t)[1..] == s[1..] + t && (s + t)[0] == s[0];
    } else {
      assert s + t == t;
    }
  }

  /** On ASCII text it only turns capitals into small letters. */
  lemma {:induction false} FoldsCapitals(s: string)
    requires forall c :: c in s ==> c < '\U{0080}'
    ensures |Fold(s)| == |s|
    ensures forall i :: 0 <= i < |s| ==> Fold(s)[i] as int == s[i] as int + if 'A' <= s[i] <= 'Z' then 32 else 0
  {
    if s != "" {
      assert s[0] in s && forall c :: c in s[1..] ==> c in s;
      FoldsCapitals(s[1..]);
      FoldsOne(s);
    }
  }

  lemma FoldsOne(s: string)
    requires s != "" && s[0] < '\U{0080}'
    ensures Fold(s) == [if 'A' <= s[0] <= 'Z' then s[0] + 32 as char else s[0]] + Fold(s[1..])
  {
  }

  // ---------------------------------------------------------------- findings

  /** The risk record speaks of this finding of this review at this revision, and a human stands behind it. */
  predicate Speaks(item: Json, finding: Record, name: string, review: Record, a: Record) {
    && item.Obj?
    && Same(Get(item.fields, FindingIdKey), Get(finding, IdKey))
    && Get(item.fields, RoleKey) == Str(name)
    && Same(Get(item.fields, ReviewReferenceKey), Get(review, ReferenceKey))
    && Same(Get(item.fields, PriorityKey), Int(2))
    && Get(item.fields, VerifiedHumanKey) == Bool(true)
    && Get(item.fields, SourceKey) in {Str("direct_user_instruction"), Str("github_human_review")}
    && Same(Get(item.fields, BaseShaKey), Get(a, BaseShaKey))
    && Same(Get(item.fields, HeadShaKey), Get(a, HeadShaKey))
    && Same(Get(item.fields, IssueUpdatedAtKey), Get(a, IssueUpdatedAtKey))
  }

  predicate Names(item: Json) {
    && item.Obj?
    && forall key :: key in {AcceptedByKey, ReferenceKey, BoundedRiskKey} ==> IsText(Get(item.fields, key))
  }

  /** The first record that speaks of the finding names its human, its origin and the bounded risk. */
  ghost predicate Tolerated(finding: Record, name: string, review: Record, a: Record, o: Record) {
    var risks := OrElse(o, HumanRiskAcceptancesKey, Arr([]));
    && risks.Arr?
    && exists i :: 0 <= i < |risks.items| && Speaks(risks.items[i], finding, name, review, a) && Names(risks.items[i])
         && forall j :: 0 <= j < i ==> risks.items[j].Obj? && !Speaks(risks.items[j], finding, name, review, a)
  }

  ghost predicate BarringFinding(items: seq<Json>, i: nat, name: string, review: Record, a: Record, o: Record)
    requires i < |items|
  {
    || !items[i].Obj?
    || (var f := items[i].fields;
        var id, priority, resolved := Get(f, IdKey), Get(f, PriorityKey), Get(f, ResolvedKey);
        || !IsText(id)
        || (exists j :: 0 <= j < i && items[j].Obj? && Get(items[j].fields, IdKey) == id)
        || !priority.Int? || priority.n < 0 || priority.n > 3
        || !resolved.Bool?
        || (!resolved.b && priority.n < 2)
        || (!resolved.b && priority.n == 2 && !Tolerated(f, name, review, a, o)))
  }

  ghost predicate BarringFindings(name: string, review: Record, a: Record, o: Record) {
    || !IsText(Get(review, ReferenceKey))
    || !Get(review, FindingsKey).Arr?
    || exists i: nat :: i < |Get(review, FindingsKey).items|
         && BarringFinding(Get(review, FindingsKey).items, i, name, review, a, o)
  }

  lemma BoundIsCurrent(x: Record, a: Record)
    ensures Current(x, a) <==> Bound(x, a)
  {
  }

  lemma SpeaksExactly(item: Json, finding: Record, name: string, review: Record, a: Record, o: Record)
    ensures Speaks(item, finding, name, review, a) <==>
              item.Obj? && Matches(item.fields, finding, Context(name, review, a, o))
  {
    hide Same;
  }

  lemma ToleratedExactly(finding: Record, name: string, review: Record, a: Record, o: Record)
    requires Get(finding, PriorityKey).Int?
    ensures Accepted(finding, Context(name, review, a, o)) <==>
              Get(finding, PriorityKey).n == 2 && Tolerated(finding, name, review, a, o)
  {
    hide Speaks, Matches, NonBlank;
    var c, risks := Context(name, review, a, o), OrElse(o, HumanRiskAcceptancesKey, Arr([]));
    forall item
      ensures Speaks(item, finding, name, review, a) <==> item.Obj? && Matches(item.fields, finding, c)
    {
      SpeaksExactly(item, finding, name, review, a, o);
    }
    if Get(finding, PriorityKey).n == 2 && Tolerated(finding, name, review, a, o) {
      var i :| 0 <= i < |risks.items| && Speaks(risks.items[i], finding, name, review, a) && Names(risks.items[i])
        && forall j :: 0 <= j < i ==> risks.items[j].Obj? && !Speaks(risks.items[j], finding, name, review, a);
      assert FirstDecision(Risks(o).items, i, finding, c);
    }
  }

  lemma FindingExactly(items: seq<Json>, i: nat, name: string, review: Record, a: Record, o: Record)
    requires i < |items|
    ensures var c := Context(name, review, a, o);
            BarringFinding(items, i, name, review, a, o) <==> FindingMalformed(items, i, c) || OpenFinding(items[i], c)
  {
    hide Tolerated, Accepted, RiskMalformed, NonBlank;
    SettledExactly(items, i, Context(name, review, a, o));
    if items[i].Obj? && Get(items[i].fields, PriorityKey).Int? {
      ToleratedExactly(items[i].fields, name, review, a, o);
    }
  }

  lemma FindingsExactly(name: string, review: Record, a: Record, o: Record)
    ensures var c := Context(name, review, a, o);
            BarringFindings(name, review, a, o) <==> FindingsMalformed(c) || FindingsOpen(c)
  {
    hide BarringFinding, FindingMalformed, OpenFinding, NonBlank;
    var findings := Get(review, FindingsKey);
    if findings.Arr? {
      forall i: nat | i < |findings.items| {
        FindingExactly(findings.items, i, name, review, a, o);
      }
    }
  }

  // ---------------------------------------------------------------- receipts

  /** A receipt of the present revision that stands against the merge. */
  ghost predicate BarringReview(review: Record, seat: Seat, a: Record, o: Record) {
    || (seat.independent && (|| !IsText(Get(review, ReviewerIdKey)) || !IsText(Get(a, WorkerIdKey))
                             || Get(review, ReviewerIdKey) == Get(a, WorkerIdKey)))
    || Get(review, VerdictKey) in {Str("changes_needed"), Str("blocked")}
    || BarringFindings(seat.name, review, a, o)
  }

  ghost predicate BarringSeat(a: Record, o: Record, seat: Seat) {
    && IsKept(a, seat.key)
    && var kept := Kept(a).fields[seat.key];
    || !kept.Obj?
    || !IsText(Get(kept.fields, ReferenceKey))
    || (Bound(kept.fields, a) && BarringReview(kept.fields, seat, a, o))
  }

  /** The seat still waits for a receipt of the present revision that says ready. */
  predicate OpenSeat(a: Record, seat: Seat) {
    || !IsKept(a, seat.key)
    || (var kept := Kept(a).fields[seat.key];
        kept.Obj? && !(Bound(kept.fields, a) && Get(kept.fields, VerdictKey) == Str("ready")))
  }

  function SeatOf(role: Role): Seat {
    match role
    case Acceptance => SEATS[0]
    case Documentation => SEATS[1]
    case CodeReview => SEATS[2]
    case DxReview => SEATS[3]
  }

  lemma SeatsAreRoles()
    ensures forall role :: role in ROLES && SeatOf(role) in SEATS
    ensures forall seat :: seat in SEATS ==> exists role :: seat == SeatOf(role)
    ensures forall role :: SeatOf(role) == Seat(Name(role), Receipt(role), IsReview(role))
  {
    forall role
      ensures role in ROLES && SeatOf(role) in SEATS
    {
      AllRoles(role);
    }
    forall seat | seat in SEATS
      ensures exists role :: seat == SeatOf(role)
    {
      assert seat == SeatOf(Acceptance) || seat == SeatOf(Documentation)
             || seat == SeatOf(CodeReview) || seat == SeatOf(DxReview);
    }
  }

  lemma ReviewExactly(review: Record, role: Role, a: Record, o: Record)
    ensures var c := Context(Name(role), review, a, o);
            var seat := Seat(Name(role), Receipt(role), IsReview(role));
            && (LiveMalformed(c, role) || LiveHolds(c, role, SelfReviewed(role))
                || LiveHolds(c, role, RequiresChanges(role)) || LiveHolds(c, role, OpenFindings(role))
                <==> BarringReview(review, seat, a, o))
            && (ReviewPasses(c, role) <==>
                  && IsText(Get(review, ReferenceKey))
                  && !BarringReview(review, seat, a, o) && Get(review, VerdictKey) == Str("ready"))
  {
    hide BarringFindings, FindingsMalformed, Settled, FindingsOpen, IsText;
    FindingsExactly(Name(role), review, a, o);
    LiveClear(Context(Name(role), review, a, o), role);
  }

  /** Some blocking reason about the role applies. */
  ghost predicate RoleBlocks(a: Record, o: Record, role: Role) {
    || RoleMalformed(a, o, role)
    || RoleHolds(a, o, role, SelfReviewed(role)) || RoleHolds(a, o, role, RequiresChanges(role))
    || RoleHolds(a, o, role, OpenFindings(role))
  }

  lemma SeatExactly(a: Record, o: Record, role: Role)
    ensures BarringSeat(a, o, SeatOf(role)) <==> RoleBlocks(a, o, role)
    ensures Evidence(a).Obj? ==>
              ((Live(a, role) && ReviewPasses(ContextOf(a, o, role), role))
                <==> !BarringSeat(a, o, SeatOf(role)) && !OpenSeat(a, SeatOf(role)))
  {
    hide BarringReview, LiveMalformed, LiveHolds, ReviewPasses, IsText, Current, Bound;
    SeatsAreRoles();
    if IsKept(a, Receipt(role)) && Item(a, Receipt(role)).Obj? {
      var kept := Item(a, Receipt(role)).fields;
      BoundIsCurrent(kept, a);
      ReviewExactly(kept, role, a, o);
    }
  }

  lemma OnlyTheseBlock(a: Record, o: Record, role: Role, r: Reason)
    requires IsBlocking(r) && RoleHolds(a, o, role, r)
    ensures r == SelfReviewed(role) || r == RequiresChanges(role) || r == OpenFindings(role)
  {
    hide FindingsOpen;
  }

  // ---------------------------------------------------------------- assignment and pull request

  ghost predicate BarringAssignment(a: Record) {
    var supports := OrElse(a, PrerequisiteMergesKey, Obj(map[]));
    || !IsCount(Get(a, IssueKey), 1)
    || !IsShaText(Get(a, BaseShaKey)) || !IsShaText(Get(a, HeadShaKey)) || !IsText(Get(a, IssueUpdatedAtKey))
    || Get(a, ClaimStateKey) == Str("retired")
    || Get(a, BlockersKey) != Arr([])
    || !supports.Obj?
    || exists k :: k in supports.fields && (
         || !supports.fields[k].Obj?
         || Get(supports.fields[k].fields, StatusKey) == Str("uncertain"))
  }

  predicate BarringPullRequest(o: Record) {
    || Get(o, MergeableKey) == Bool(false)
    || Get(o, UnresolvedReviewThreadsKey) !in {Null, Int(0)}
  }

  predicate OpenPullRequest(o: Record, a: Record) {
    || !Bound(o, a)
    || Get(o, DraftKey) != Bool(false)
    || Get(o, MergeableKey) != Bool(true)
    || Get(o, UnresolvedReviewThreadsKey) == Null
  }

  lemma AssignmentExactly(a: Record, o: Record)
    ensures BarringAssignment(a) <==>
              || AssignmentMalformed(a) || AssignmentHolds(a, o, AssignmentRetired)
              || AssignmentHolds(a, o, SupportingUncertain) || AssignmentHolds(a, o, HasBlockers)
    ensures AssignmentReady(a, o) <==> !BarringAssignment(a) && Bound(o, a)
  {
    hide IsShaText, IsText, Current, Bound;
    BoundIsCurrent(o, a);
  }

  lemma PullRequestExactly(a: Record, o: Record)
    ensures BarringPullRequest(o) <==>
              ThreadsMalformed(o) || PullRequestHolds(o, MergeConflict) || PullRequestHolds(o, ThreadsOpen)
    ensures PullRequestReady(o) && Bound(o, a) <==> !BarringPullRequest(o) && !OpenPullRequest(o, a)
  {
    hide Bound;
  }

  // ---------------------------------------------------------------- checks

  function Recorded(a: Record): Json {
    if Kept(a).Obj? then OrElse(Kept(a).fields, ChecksKey, Arr([])) else Arr([])
  }

  /** GitHub's own list, where nothing observed means none. */
  function Listed(o: Record): Json {
    if Get(o, RequiredChecksKey) == Null then Arr([]) else Get(o, RequiredChecksKey)
  }

  /** The check answers for one that the assignment requires, and it was taken at its base and head. */
  predicate Counts(check: Record, a: Record) {
    && Get(a, RequiredChecksKey).Arr? && Get(check, NameKey) in Get(a, RequiredChecksKey).items
    && Same(Get(check, HeadShaKey), Get(a, HeadShaKey)) && Same(Get(check, BaseShaKey), Get(a, BaseShaKey))
  }

  const FAILURES := {"failure", "timed_out", "action_required", "startup_failure"}

  /** The conclusion is one of these words: in any letter case for the bot's completed run, else to the letter. */
  predicate Concludes(check: Record, words: set<string>) {
    var name, conclusion := Get(check, NameKey), Get(check, ConclusionKey);
    && conclusion.Str?
    && if name.Str? && Fold(name.s) == "coderabbit" then
         && Fold(conclusion.s) in words
         && Get(check, StatusKey).Str? && Fold(Get(check, StatusKey).s) == "completed"
       else conclusion.s in words
  }

  predicate Succeeds(check: Record) {
    var name, applies := Get(check, NameKey), Get(check, ApplicableKey);
    if name.Str? && Fold(name.s) == "coderabbit" then Concludes(check, {"success", "neutral", "skipped"})
    else
      || (applies == Bool(true) && Concludes(check, {"success"}))
      || (applies == Bool(false) && Concludes(check, {"skipped"}) && IsText(Get(check, ExplanationKey)))
  }

  ghost predicate BarringCheck(a: Record, recorded: seq<Json>, i: nat)
    requires i < |recorded|
  {
    || !recorded[i].Obj?
    || (var check := recorded[i].fields;
        || !IsText(Get(check, NameKey))
        || (exists k :: 0 <= k < i && recorded[k].Obj? && Get(recorded[k].fields, NameKey) == Get(check, NameKey))
        || (Counts(check, a) && (!IsText(Get(check, ReferenceKey)) || Concludes(check, FAILURES))))
  }

  ghost predicate BarringChecks(a: Record, o: Record) {
    || !UniqueTexts(Get(a, RequiredChecksKey)) || Get(a, RequiredChecksKey) == Arr([])
    || !Texts(Listed(o))
    || !Recorded(a).Arr?
    || exists i: nat :: i < |Recorded(a).items| && BarringCheck(a, Recorded(a).items, i)
  }

  ghost predicate IsMet(a: Record, recorded: seq<Json>, name: Json) {
    exists i :: 0 <= i < |recorded| && recorded[i].Obj? && Get(recorded[i].fields, NameKey) == name
      && Counts(recorded[i].fields, a) && Succeeds(recorded[i].fields)
  }

  ghost predicate OpenChecks(a: Record, o: Record) {
    var required, recorded := Get(a, RequiredChecksKey), Recorded(a);
    && required.Arr? && recorded.Arr? && Listed(o).Arr?
    && exists name ::
         || (name in required.items && name !in Listed(o).items)
         || (name in Listed(o).items && name !in required.items)
         || (name in required.items && !IsMet(a, recorded.items, name))
  }

  lemma CountsExactly(check: Record, a: Record, name: string)
    requires Get(check, NameKey) == Str(name)
    ensures Counts(check, a) <==> RequiresCheck(a, name) && FreshCheck(check, a)
    ensures Concludes(check, FAILURES) <==> CheckResult(check, IsBot(name)).Blocked?
    ensures Succeeds(check) <==> CheckPassed(check, IsBot(name))
  {
    hide Same, Fold, NonBlank;
  }

  lemma RecordedExactly(a: Record, i: nat)
    requires Checks(a).Arr? && i < |Checks(a).items| && ChecksListed(a)
    ensures Checks(a).items[i].Obj? && Get(Checks(a).items[i].fields, NameKey).Str?
    ensures CheckOf(a, Get(Checks(a).items[i].fields, NameKey).s) == Some(Checks(a).items[i].fields)
  {
    hide NonBlank;
    var items := Checks(a).items;
    var name := Get(items[i].fields, NameKey).s;
    assert IsNamed(items[i], name);
    forall k | 0 <= k < |items| && IsNamed(items[k], name)
      ensures k == i
    {
    }
  }

  ghost predicate BlockingCheck(a: Record, name: string) {
    RequiresCheck(a, name) && (Unreadable(a, name) || CheckHolds(a, name, FailedCheck(name)))
  }

  lemma WellFormedChecks(a: Record, o: Record)
    ensures Recorded(a) == Checks(a) && Listed(o) == ObservedNames(o)
    ensures RequiredNames(a) <==> UniqueTexts(Get(a, RequiredChecksKey)) && Get(a, RequiredChecksKey) != Arr([])
    ensures AreTexts(ObservedNames(o)) <==> Texts(Listed(o))
    ensures AreTexts(Required(a)) <==> Texts(Required(a))
  {
    hide IsText;
  }

  lemma OneCheckExactly(a: Record, i: nat)
    requires ChecksListed(a) && i < |Checks(a).items|
    ensures var check := Checks(a).items[i];
            BarringCheck(a, Checks(a).items, i) <==> BlockingCheck(a, Get(check.fields, NameKey).s)
  {
    hide IsText, Counts, CheckOf, Concludes, CheckResult, FreshCheck;
    RecordedExactly(a, i);
    var check := Checks(a).items[i].fields;
    CountsExactly(check, a, Get(check, NameKey).s);
  }

  /** A list that cannot be read bars the merge at its first unreadable or repeated check. */
  lemma UnlistedBars(a: Record)
    requires Checks(a).Arr? && !ChecksListed(a)
    ensures exists i: nat :: i < |Checks(a).items| && BarringCheck(a, Checks(a).items, i)
  {
    hide IsText, Counts, Concludes;
    var items := Checks(a).items;
    if i: nat :| i < |items| && !(items[i].Obj? && IsText(Get(items[i].fields, NameKey))) {
      assert BarringCheck(a, items, i);
    } else {
      var i: nat, j: nat :| i < j < |items| && items[i].Obj? && items[j].Obj?
                            && Get(items[i].fields, NameKey) == Get(items[j].fields, NameKey);
      assert BarringCheck(a, items, j);
    }
  }

  lemma BlockingIsRecorded(a: Record, name: string) returns (i: nat)
    requires ChecksListed(a) && BlockingCheck(a, name)
    ensures i < |Checks(a).items| && Checks(a).items[i].Obj?
    ensures Get(Checks(a).items[i].fields, NameKey) == Str(name)
  {
    hide CheckResult, IsText, Same;
    assert CheckOf(a, name).Some?;
    i :| i < |Checks(a).items| && IsNamed(Checks(a).items[i], name);
  }

  lemma ChecksExactly(a: Record, o: Record)
    ensures BarringChecks(a, o) <==> ChecksMalformed(a, o) || exists name :: BlockingCheck(a, name)
  {
    hide IsText, BlockingCheck, BarringCheck, CheckHolds, RequiredNames, UniqueTexts, AreTexts, Texts, RequiresCheck,
         Unreadable, ChecksListed;
    WellFormedChecks(a, o);
    UnreadableBlocks(a);
    if !Checks(a).Arr? {
      assert !ChecksListed(a) by { NothingListed(a); }
    } else if !ChecksListed(a) {
      UnlistedBars(a);
    } else {
      if i: nat :| i < |Checks(a).items| && BarringCheck(a, Checks(a).items, i) {
        RecordedExactly(a, i);
        OneCheckExactly(a, i);
      }
      if name :| BlockingCheck(a, name) {
        var i := BlockingIsRecorded(a, name);
        OneCheckExactly(a, i);
        assert BarringCheck(a, Checks(a).items, i);
      }
    }
  }

  lemma NothingListed(a: Record)
    requires !Checks(a).Arr?
    ensures !ChecksListed(a)
  {
  }

  lemma UnreadableBlocks(a: Record)
    ensures forall name :: RequiresCheck(a, name) && Unreadable(a, name) ==> BlockingCheck(a, name)
    ensures forall name :: Unreadable(a, name) ==> !CheckPasses(a, name)
  {
  }

  lemma MetExactly(a: Record, name: string)
    requires ChecksListed(a) && RequiresCheck(a, name)
    ensures CheckPasses(a, name) <==> IsMet(a, Checks(a).items, Str(name)) && !BlockingCheck(a, name)
  {
    hide IsText, Counts, CheckPassed, FreshCheck, Succeeds;
    var items := Checks(a).items;
    forall i: nat | i < |items| && items[i].Obj? && Get(items[i].fields, NameKey) == Str(name)
      ensures Counts(items[i].fields, a) <==> FreshCheck(items[i].fields, a)
      ensures Succeeds(items[i].fields) <==> CheckPassed(items[i].fields, IsBot(name))
      ensures CheckOf(a, name) == Some(items[i].fields)
    {
      CountsExactly(items[i].fields, a, name);
      RecordedExactly(a, i);
    }
    if CheckPasses(a, name) {
      var i: nat :| i < |items| && IsNamed(items[i], name);
    }
  }

  lemma ChecksReadyExactly(a: Record, o: Record)
    ensures ChecksReady(a, o) <==> !BarringChecks(a, o) && !OpenChecks(a, o)
  {
    hide IsText, CheckPasses, BarringChecks, IsMet, Unreadable, BlockingCheck, ChecksListed, RequiredNames, CheckOf,
         CheckPassed, FreshCheck;
    WellFormedChecks(a, o);
    ChecksExactly(a, o);
    UnreadableBlocks(a);
    if !ChecksMalformed(a, o) {
      MalformedChecksAre(a, o);
      assert ChecksListed(a);
      TextsAreStrings(Required(a));
      TextsAreStrings(Listed(o));
      forall name | RequiresCheck(a, name)
        ensures CheckPasses(a, name) <==> IsMet(a, Checks(a).items, Str(name)) && !BlockingCheck(a, name)
      {
        MetExactly(a, name);
      }
      forall name
        ensures BlockingCheck(a, name) ==> RequiresCheck(a, name)
      {
        BlockingIsRequired(a, name);
      }
    }
  }

  lemma MalformedChecksAre(a: Record, o: Record)
    ensures ChecksListed(a) ==> Checks(a).Arr?
    ensures RequiredNames(a) ==> Required(a).Arr? && AreTexts(Required(a))
  {
  }

  lemma BlockingIsRequired(a: Record, name: string)
    ensures BlockingCheck(a, name) ==> RequiresCheck(a, name)
  {
  }

  lemma TextsAreStrings(j: Json)
    requires Texts(j)
    ensures forall x :: x in j.items ==> x.Str?
  {
  }

  // ---------------------------------------------------------------- the review bot

  /** The bot's run is over: it completed, or it was seen not to have been reported. */
  predicate IsOver(rabbit: Record) {
    && Get(rabbit, StatusKey).Str? && Fold(Get(rabbit, StatusKey).s) in {"completed", "not_reported"}
    && {ConclusionKey, CommentsKey} <= rabbit.Keys
  }

  ghost predicate IsReadable(rabbit: Record) {
    (Get(rabbit, ConclusionKey) == Null || IsText(Get(rabbit, ConclusionKey))) && UniqueTexts(Get(rabbit, CommentsKey))
  }

  /** The run left comments that a local review must have examined. */
  predicate LeftComments(rabbit: Record) {
    Get(rabbit, CommentsKey) != Arr([]) && Get(rabbit, StatusKey).Str? && Fold(Get(rabbit, StatusKey).s) == "completed"
  }

  predicate LeftNothing(rabbit: Record) {
    && Get(rabbit, CommentsKey) == Arr([])
    && ((Get(rabbit, StatusKey).Str? && Fold(Get(rabbit, StatusKey).s) == "completed")
        || Get(rabbit, ConclusionKey) == Null)
  }

  /** A ready review of the present revision that the bot's record refers to. */
  predicate IsReferredTo(review: Record, rabbit: Record, a: Record) {
    && Same(Get(review, ReferenceKey), Get(rabbit, LocalReviewReferenceKey))
    && Bound(review, a) && Get(review, VerdictKey) == Str("ready")
  }

  predicate ListsExamined(review: Record) {
    var examined := OrElse(review, ReviewedCommentsKey, Arr([]));
    examined.Arr? && forall i :: 0 <= i < |examined.items| ==>
      && examined.items[i].Obj?
      && IsText(Get(examined.items[i].fields, IdKey)) && IsText(Get(examined.items[i].fields, ReviewReferenceKey))
  }

  ghost predicate IsExamined(review: Record, comment: Json, run: Json) {
    var examined := OrElse(review, ReviewedCommentsKey, Arr([]));
    && examined.Arr?
    && exists i :: 0 <= i < |examined.items| && examined.items[i].Obj?
         && Get(examined.items[i].fields, IdKey) == comment && Get(examined.items[i].fields, ReviewReferenceKey) == run
  }

  /** The receipt of this field examined every comment of the run, and somebody else than the worker wrote it. */
  ghost predicate ExaminesAll(a: Record, rabbit: Record, key: Key) {
    && IsKept(a, key) && Kept(a).fields[key].Obj?
    && var review := Kept(a).fields[key].fields;
    && IsReferredTo(review, rabbit, a)
    && IsText(Get(review, ReviewerIdKey)) && Get(review, ReviewerIdKey) != Get(a, WorkerIdKey)
    && ListsExamined(review)
    && Get(rabbit, CommentsKey).Arr?
    && forall i :: 0 <= i < |Get(rabbit, CommentsKey).items| ==>
         IsExamined(review, Get(rabbit, CommentsKey).items[i], Get(rabbit, ReferenceKey))
  }

  predicate IsUnusable(a: Record, rabbit: Record, key: Key) {
    && IsKept(a, key)
    && var kept := Kept(a).fields[key];
    || !kept.Obj?
    || (IsReferredTo(kept.fields, rabbit, a) &&
        (|| !IsText(Get(kept.fields, ReviewerIdKey))
         || (Get(kept.fields, ReviewerIdKey) != Get(a, WorkerIdKey) && !ListsExamined(kept.fields))))
  }

  ghost predicate BarringRun(rabbit: Record, a: Record) {
    || !IsText(Get(rabbit, ReferenceKey))
    || (IsOver(rabbit) && !IsReadable(rabbit))
    || (IsOver(rabbit) && LeftComments(rabbit) && IsText(Get(rabbit, LocalReviewReferenceKey)) &&
        (|| IsUnusable(a, rabbit, CodeReviewKey)
         || (!ExaminesAll(a, rabbit, CodeReviewKey) && IsUnusable(a, rabbit, DxReviewKey))))
  }

  ghost predicate EndedWell(rabbit: Record, a: Record) {
    && IsOver(rabbit) && IsReadable(rabbit)
    && (|| LeftNothing(rabbit)
        || (LeftComments(rabbit) && IsText(Get(rabbit, LocalReviewReferenceKey))
            && (ExaminesAll(a, rabbit, CodeReviewKey) || ExaminesAll(a, rabbit, DxReviewKey))))
  }

  ghost predicate BarringBot(a: Record) {
    && IsKept(a, CoderabbitKey)
    && var kept := Kept(a).fields[CoderabbitKey];
    !kept.Obj? || (Bound(kept.fields, a) && BarringRun(kept.fields, a))
  }

  ghost predicate OpenBot(a: Record) {
    || !IsKept(a, CoderabbitKey)
    || (var kept := Kept(a).fields[CoderabbitKey];
        kept.Obj? && !(Bound(kept.fields, a) && EndedWell(kept.fields, a)))
  }

  lemma ExaminesExactly(a: Record, rabbit: Record, role: Role)
    requires Texts(Get(rabbit, CommentsKey))
    ensures ExaminesAll(a, rabbit, Receipt(role)) <==> Covers(a, rabbit, role)
    ensures IsUnusable(a, rabbit, Receipt(role)) <==> CoverMalformed(a, rabbit, role)
  {
    hide NonBlank, Bound, Current, Same;
    if IsKept(a, Receipt(role)) && Item(a, Receipt(role)).Obj? {
      var review := Item(a, Receipt(role)).fields;
      BoundIsCurrent(review, a);
      forall i | 0 <= i < |Get(rabbit, CommentsKey).items|
        ensures var x := Get(rabbit, CommentsKey).items[i];
                x.Str? && (IsExamined(review, x, Get(rabbit, ReferenceKey))
                           <==> Examined(review, x.s, Get(rabbit, ReferenceKey)))
      {
        ExaminedExactly(review, Get(rabbit, CommentsKey).items[i].s, Get(rabbit, ReferenceKey));
      }
    }
  }

  lemma ExaminedExactly(review: Record, id: string, run: Json)
    ensures IsExamined(review, Str(id), run) <==> Examined(review, id, run)
  {
    if Examined(review, id, run) {
      var x :| x in Reviewed(review).items && IsExamination(x, id, run);
      var i :| 0 <= i < |Reviewed(review).items| && Reviewed(review).items[i] == x;
      assert Reviewed(review).items[i].Obj?;
    }
    if IsExamined(review, Str(id), run) {
      var items := Reviewed(review).items;
      var i :| 0 <= i < |items| && items[i].Obj? && Get(items[i].fields, IdKey) == Str(id)
               && Get(items[i].fields, ReviewReferenceKey) == run;
      assert items[i] in items && IsExamination(items[i], id, run);
    }
  }

  lemma RunExactly(a: Record, rabbit: Record)
    ensures BarringRun(rabbit, a) <==> RabbitMalformed(a, rabbit)
    ensures EndedWell(rabbit, a) <==> RabbitSettled(a, rabbit)
  {
    hide NonBlank, ExaminesAll, IsUnusable, Covers, CoverMalformed, Fold;
    if Texts(Get(rabbit, CommentsKey)) {
      ExaminesExactly(a, rabbit, CodeReview);
      ExaminesExactly(a, rabbit, DxReview);
    }
  }

  lemma BotExactly(a: Record)
    ensures BarringBot(a) <==> BotMalformed(a)
    ensures Evidence(a).Obj? ==> (BotReady(a) <==> !BarringBot(a) && !OpenBot(a))
  {
    hide Current, Bound, BarringRun, EndedWell, RabbitMalformed, RabbitSettled;
    if IsKept(a, CoderabbitKey) && Kept(a).fields[CoderabbitKey].Obj? {
      BoundIsCurrent(Kept(a).fields[CoderabbitKey].fields, a);
      RunExactly(a, Kept(a).fields[CoderabbitKey].fields);
    }
  }

  // ---------------------------------------------------------------- the assessment

  /** Something on record stands against the merge. */
  ghost predicate Barred(a: Record, o: Record) {
    || BarringAssignment(a) || BarringPullRequest(o) || !Kept(a).Obj?
    || (exists seat :: seat in SEATS && BarringSeat(a, o, seat))
    || BarringChecks(a, o) || BarringBot(a)
  }

  /** Something that a merge needs is not on record. */
  ghost predicate Wanting(a: Record, o: Record) {
    || OpenPullRequest(o, a)
    || (exists seat :: seat in SEATS && OpenSeat(a, seat))
    || OpenChecks(a, o) || OpenBot(a)
  }

  lemma SeatsExactly(a: Record, o: Record)
    ensures (exists seat :: seat in SEATS && BarringSeat(a, o, seat)) <==>
              exists role :: role in ROLES && RoleBlocks(a, o, role)
    ensures Evidence(a).Obj? ==>
              (ReviewsReady(a, o) <==> forall seat :: seat in SEATS ==> !BarringSeat(a, o, seat) && !OpenSeat(a, seat))
  {
    hide BarringSeat, OpenSeat, RoleBlocks, ReviewPasses, Current;
    SeatsAreRoles();
    forall role {
      SeatExactly(a, o, role);
    }
  }

  ghost predicate Blocks(a: Record, o: Record) {
    || IsMalformed(a, o)
    || AssignmentHolds(a, o, AssignmentRetired) || AssignmentHolds(a, o, SupportingUncertain)
    || AssignmentHolds(a, o, HasBlockers)
    || PullRequestHolds(o, MergeConflict) || PullRequestHolds(o, ThreadsOpen)
    || (exists role :: role in ROLES && RoleBlocks(a, o, role))
    || (exists name :: BlockingCheck(a, name))
  }

  lemma HeldReasonBlocks(a: Record, o: Record, r: Reason)
    requires IsBlocking(r) && Holds(a, o, r)
    ensures Blocks(a, o)
  {
    hide IsMalformed, RoleHolds, RoleMalformed, SupportingIsUncertain, CheckOf, Graded;
    if RolesHold(a, o, r) {
      var role :| role in ROLES && RoleHolds(a, o, role, r);
      OnlyTheseBlock(a, o, role, r);
      assert RoleBlocks(a, o, role);
    } else if SomeCheckHolds(a, r) {
      var name :| RequiresCheck(a, name) && CheckHolds(a, name, r);
      assert BlockingCheck(a, name);
    }
  }

  lemma BlockingReasonHolds(a: Record, o: Record)
    requires Blocks(a, o)
    ensures exists r :: IsBlocking(r) && Holds(a, o, r)
  {
    hide AssignmentHolds, PullRequestHolds, RoleHolds, CheckHolds, BotHolds, RoleMalformed, AssignmentMalformed,
         ThreadsMalformed, BotMalformed, Unreadable, ChecksListed, RequiresCheck;
    if IsMalformed(a, o) {
      assert Holds(a, o, Malformed);
    } else if role :| role in ROLES && RoleBlocks(a, o, role) {
      var r :| r in [SelfReviewed(role), RequiresChanges(role), OpenFindings(role)] && RoleHolds(a, o, role, r);
      assert RolesHold(a, o, r) && Holds(a, o, r) && IsBlocking(r);
    } else if name :| BlockingCheck(a, name) {
      assert SomeCheckHolds(a, FailedCheck(name)) && Holds(a, o, FailedCheck(name));
    } else {
      assert exists r :: r in [AssignmentRetired, SupportingUncertain, HasBlockers, MergeConflict, ThreadsOpen]
                           && Holds(a, o, r) by {
        var all := [AssignmentRetired, SupportingUncertain, HasBlockers, MergeConflict, ThreadsOpen];
        assert all[0] in all && all[1] in all && all[2] in all && all[3] in all && all[4] in all;
      }
    }
  }

  /** The assessment blocks exactly what the record bars. */
  lemma BlockedExactly(a: Record, o: Record)
    ensures VerdictOf(a, o).Blocked? <==> Barred(a, o)
  {
    hide AssignmentHolds, PullRequestHolds, RoleBlocks, BlockingCheck, Holds, RoleMalformed, ChecksMalformed,
         BotMalformed, AssignmentMalformed, ThreadsMalformed, BarringAssignment, BarringPullRequest, BarringSeat,
         BarringChecks, BarringBot;
    AssignmentExactly(a, o);
    PullRequestExactly(a, o);
    SeatsExactly(a, o);
    ChecksExactly(a, o);
    BotExactly(a);
    MalformedRoleBlocks(a, o);
    if Blocks(a, o) {
      BlockingReasonHolds(a, o);
    }
    if r :| IsBlocking(r) && Holds(a, o, r) {
      HeldReasonBlocks(a, o, r);
    }
  }

  lemma MalformedRoleBlocks(a: Record, o: Record)
    ensures forall role :: RoleMalformed(a, o, role) ==> RoleBlocks(a, o, role)
  {
  }

  /** It says ready exactly when the record bars nothing and wants nothing, and otherwise it is pending. */
  lemma VerdictExactly(a: Record, o: Record)
    ensures VerdictOf(a, o) == if Barred(a, o) then Blocked else if Wanting(a, o) then Pending else Ready
  {
    hide VerdictOf, AssignmentReady, PullRequestReady, ReviewsReady, ChecksReady, BotReady, BarringAssignment,
         BarringPullRequest, BarringSeat, BarringChecks, BarringBot, OpenPullRequest, OpenSeat, OpenChecks, OpenBot;
    BlockedExactly(a, o);
    ReadyExactly(a, o);
    AssignmentExactly(a, o);
    PullRequestExactly(a, o);
    SeatsExactly(a, o);
    ChecksReadyExactly(a, o);
    BotExactly(a);
  }

  /** An unresolved finding of priority 0, 1 or 2 in a receipt of the present revision blocks unless some risk record
      meets every condition: one that fails any of them in every record is enough. */
  lemma UnacceptedFindingBlocks(a: Record, o: Record, seat: Seat, i: nat)
    requires seat in SEATS && IsKept(a, seat.key) && Kept(a).fields[seat.key].Obj?
    requires var review := Kept(a).fields[seat.key].fields;
             && Bound(review, a) && Get(review, FindingsKey).Arr? && i < |Get(review, FindingsKey).items|
             && Get(review, FindingsKey).items[i].Obj?
    requires var review := Kept(a).fields[seat.key].fields;
             var finding := Get(review, FindingsKey).items[i].fields;
             && Get(finding, ResolvedKey) == Bool(false)
             && Get(finding, PriorityKey).Int? && Get(finding, PriorityKey).n <= 2
             && (HumanRiskAcceptancesKey in o && o[HumanRiskAcceptancesKey].Arr? ==>
                   forall x :: x in o[HumanRiskAcceptancesKey].items && x.Obj? ==>
                     || !Same(Get(x.fields, FindingIdKey), Get(finding, IdKey))
                     || Get(x.fields, RoleKey) != Str(seat.name)
                     || !Same(Get(x.fields, ReviewReferenceKey), Get(review, ReferenceKey))
                     || !Same(Get(x.fields, PriorityKey), Int(2))
                     || Get(x.fields, VerifiedHumanKey) != Bool(true)
                     || Get(x.fields, SourceKey) !in {Str("direct_user_instruction"), Str("github_human_review")}
                     || !Same(Get(x.fields, BaseShaKey), Get(a, BaseShaKey))
                     || !Same(Get(x.fields, HeadShaKey), Get(a, HeadShaKey))
                     || !Same(Get(x.fields, IssueUpdatedAtKey), Get(a, IssueUpdatedAtKey))
                     || !IsText(Get(x.fields, AcceptedByKey)) || !IsText(Get(x.fields, ReferenceKey))
                     || !IsText(Get(x.fields, BoundedRiskKey)))
    ensures VerdictOf(a, o).Blocked?
  {
    hide VerdictOf, Same, NonBlank, Bound, BarringAssignment, BarringChecks, BarringBot;
    var review := Kept(a).fields[seat.key].fields;
    assert !Tolerated(Get(review, FindingsKey).items[i].fields, seat.name, review, a, o);
    assert BarringFinding(Get(review, FindingsKey).items, i, seat.name, review, a, o);
    assert BarringReview(review, seat, a, o);
    assert BarringSeat(a, o, seat);
    BlockedExactly(a, o);
  }

  // ---------------------------------------------------------------- supporting pull requests

  predicate IsOfPacket(receipt: Json, packet: Record) {
    && receipt.Obj?
    && forall key :: key in {PrKey, ScopeKey} ==> Same(Get(receipt.fields, key), Get(packet, key))
  }

  /** The review of the boundary is current, ready, and somebody else than the worker wrote it. */
  predicate CoversScope(a: Record, packet: Record, review: Record) {
    && Bound(review, a)
    && (forall key :: key in {ScopeKey, RemainingAcceptanceKey} ==> Same(Get(review, key), Get(packet, key)))
    && Same(Get(review, DeferredBlockersKey), Get(a, BlockersKey))
    && (forall key :: key in {ReferenceKey, DependencyRationaleKey, ReviewerIdKey} ==> IsText(Get(review, key)))
    && Get(review, VerdictKey) == Str("ready")
    && Get(review, ReviewerIdKey) != Get(a, WorkerIdKey)
  }

  /** What a supporting packet must show, field by field. */
  ghost predicate Admissible(a: Record, packet: Record) {
    var remaining, scopeReview := Get(packet, RemainingAcceptanceKey), Get(packet, ScopeReviewKey);
    var evidence, observed := Get(packet, EvidenceKey), Get(packet, ObservationKey);
    && IsCount(Get(packet, PrKey), 1) && IsText(Get(packet, ScopeKey)) && Texts(remaining) && remaining != Arr([])
    && scopeReview.Obj? && evidence.Obj? && observed.Obj?
    && CoversScope(a, packet, scopeReview.fields)
    && (forall seat :: seat in SEATS ==> IsOfPacket(Get(evidence.fields, seat.key), packet))
    && Same(Get(observed.fields, PrKey), Get(packet, PrKey))
    && Get(observed.fields, ClosingIssuesKey) == Arr([])
    && Get(a, MergeStateKey) !in {Str("uncertain"), Str("merged")}
    && !BarringFindings("scope_review", scopeReview.fields, a, observed.fields)
  }

  lemma ReceiptsExactly(evidence: Record, packet: Record)
    ensures ReceiptsNamePacket(evidence, packet) <==>
              forall seat :: seat in SEATS ==> IsOfPacket(Get(evidence, seat.key), packet)
  {
    hide Same;
    SeatsAreRoles();
    forall receipt
      ensures IsOfPacket(receipt, packet) <==> NamesPacket(receipt, packet)
    {
    }
    if forall seat :: seat in SEATS ==> IsOfPacket(Get(evidence, seat.key), packet) {
      forall role
        ensures NamesPacket(Get(evidence, Receipt(role)), packet)
      {
        assert IsOfPacket(Get(evidence, SeatOf(role).key), packet);
      }
    }
  }

  lemma ShapeExactly(packet: Record)
    ensures PacketShape(packet) <==>
              && IsCount(Get(packet, PrKey), 1) && IsText(Get(packet, ScopeKey))
              && Texts(Get(packet, RemainingAcceptanceKey)) && Get(packet, RemainingAcceptanceKey) != Arr([])
              && Get(packet, ScopeReviewKey).Obj? && Get(packet, EvidenceKey).Obj? && Get(packet, ObservationKey).Obj?
  {
    hide IsText, IsCount;
  }

  lemma ScopeReviewExactly(a: Record, packet: Record, review: Record)
    ensures ScopeReviewed(a, packet, review) <==> CoversScope(a, packet, review)
  {
    hide IsText, Same, Current, Bound;
    BoundIsCurrent(review, a);
  }

  /** The packet is accepted exactly when it shows all of that. */
  lemma PacketExactly(a: Record, packet: Record)
    ensures PacketAccepted(a, packet) <==> Admissible(a, packet)
  {
    hide Same, IsText, IsCount, Texts, BarringFindings, FindingsMalformed, FindingsOpen, ScopeReviewed, CoversScope,
         ReceiptsNamePacket, IsOfPacket, PacketShape, SEATS;
    ShapeExactly(packet);
    if PacketShape(packet) {
      var review := Get(packet, ScopeReviewKey).fields;
      ScopeReviewExactly(a, packet, review);
      ReceiptsExactly(Get(packet, EvidenceKey).fields, packet);
      FindingsExactly("scope_review", review, a, Get(packet, ObservationKey).fields);
    }
  }

  /** The assessment of the rest keeps the assignment but for its blockers and its evidence. */
  lemma SubstitutedExactly(a: Record, evidence: Json, key: Key)
    ensures Get(Substituted(a, evidence), key) ==
              match key
              case BlockersKey => Arr([])
              case EvidenceKey => evidence
              case _ => Get(a, key)
  {
  }
}
