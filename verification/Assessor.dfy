/** The assessor as it runs: lists that grow, loops that stop early, malformed evidence that raises. */
module Assessor {
  import opened Text
  import opened Json
  import opened Assessment

  /** A Boolean answer, or the ValueError raised on the way to it. */
  datatype Answer = Yes | No | Raised

  datatype Assessed = Assessed(verdict: Grade, reasons: seq<Reason>)

  method AcceptedRisk(finding: Record, c: Context) returns (answer: Answer)
    requires IsText(Get(c.review, ReferenceKey))
    ensures answer.Yes? <==> Accepted(finding, c)
    ensures answer.Raised? <==> RiskMalformed(finding, c)
  {
    hide Same, Signed, Matches;
    if !Same(Get(finding, PriorityKey), Int(2)) {
      return No;
    }
    if !Risks(c.o).Arr? {
      return Raised;
    }
    var items := Risks(c.o).items;
    for i := 0 to |items|
      invariant forall j :: 0 <= j < i ==> !Decides(items[j], finding, c)
    {
      if !items[i].Obj? {
        assert FirstDecision(items, i, finding, c);
        return Raised;
      }
      var risk := items[i].fields;
      if Matches(risk, finding, c) {
        assert FirstDecision(items, i, finding, c);
        return if Signed(risk) then Yes else Raised;
      }
    }
    return No;
  }

  /** The identifiers of the first i findings, all of them readable. */
  ghost predicate Identifies(items: seq<Json>, i: nat, identifiers: set<string>)
    requires i <= |items|
  {
    && (forall j :: 0 <= j < i ==> items[j].Obj? && IsText(Get(items[j].fields, IdKey)))
    && forall id :: id in identifiers <==> exists j :: 0 <= j < i && Get(items[j].fields, IdKey) == Str(id)
  }

  /** One finding, after those before it were found well formed. */
  method FindingBlock(items: seq<Json>, i: nat, identifiers: set<string>, c: Context) returns (answer: Answer)
    requires i < |items| && Identifies(items, i, identifiers) && IsText(Get(c.review, ReferenceKey))
    ensures answer.Raised? <==> FindingMalformed(items, i, c)
    ensures !answer.Raised? ==> (answer.Yes? <==> OpenFinding(items[i], c))
  {
    hide Accepted, RiskMalformed, NonBlank;
    if !items[i].Obj? {
      return Raised;
    }
    var finding := items[i].fields;
    var id := Get(finding, IdKey);
    if !IsText(id) || id.s in identifiers {
      assert IsText(id) ==> exists j :: 0 <= j < i && SameId(items[j], items[i]);
      return Raised;
    }
    if !FindingShape(finding) {
      return Raised;
    }
    if !Material(finding) {
      return No;
    }
    var accepted := AcceptedRisk(finding, c);
    answer := if accepted.Raised? then Raised else if accepted.No? then Yes else No;
  }

  lemma IdentifiesNext(items: seq<Json>, i: nat, identifiers: set<string>, c: Context)
    requires i < |items| && Identifies(items, i, identifiers) && !FindingMalformed(items, i, c)
    ensures items[i].Obj? && IsText(Get(items[i].fields, IdKey))
    ensures Identifies(items, i + 1, identifiers + {Get(items[i].fields, IdKey).s})
  {
    hide RiskMalformed, NonBlank;
    var next := identifiers + {Get(items[i].fields, IdKey).s};
    forall id
      ensures id in next <==> exists j :: 0 <= j < i + 1 && Get(items[j].fields, IdKey) == Str(id)
    {
      if id in identifiers {
        var j :| 0 <= j < i && Get(items[j].fields, IdKey) == Str(id);
      }
    }
  }

  method FindingBlocks(c: Context) returns (answer: Answer)
    ensures answer.Raised? <==> FindingsMalformed(c)
    ensures !answer.Raised? ==> (answer.Yes? <==> FindingsOpen(c))
  {
    hide FindingMalformed, OpenFinding, Identifies, NonBlank;
    if !IsText(Get(c.review, ReferenceKey)) || !Get(c.review, FindingsKey).Arr? {
      return Raised;
    }
    var items := Get(c.review, FindingsKey).items;
    var blocked := false;
    var identifiers: set<string> := {};
    NothingIdentified(items);
    for i := 0 to |items|
      invariant Identifies(items, i, identifiers)
      invariant forall j: nat :: j < i ==> !FindingMalformed(items, j, c)
      invariant blocked <==> exists j :: 0 <= j < i && OpenFinding(items[j], c)
    {
      var one := FindingBlock(items, i, identifiers, c);
      if one.Raised? {
        return Raised;
      }
      IdentifiesNext(items, i, identifiers, c);
      identifiers := identifiers + {Get(items[i].fields, IdKey).s};
      blocked := blocked || one.Yes?;
    }
    return if blocked then Yes else No;
  }

  lemma NothingIdentified(items: seq<Json>)
    ensures Identifies(items, 0, {})
  {
  }

  // ---------------------------------------------------------------- the review bot

  /** Whether one local review covers every comment of the run. */
  method CoverOf(a: Record, rabbit: Record, role: Role) returns (answer: Answer)
    requires NeedsCover(rabbit)
    ensures answer.Raised? <==> CoverMalformed(a, rabbit, role)
    ensures !answer.Raised? ==> (answer.Yes? <==> Covers(a, rabbit, role))
  {
    if !Has(a, Receipt(role)) {
      return No;
    }
    if !Item(a, Receipt(role)).Obj? {
      return Raised;
    }
    var review := Item(a, Receipt(role)).fields;
    if !Answers(review, Get(rabbit, LocalReviewReferenceKey), a) {
      return No;
    }
    if !IsText(Get(review, ReviewerIdKey)) {
      return Raised;
    }
    if Get(review, ReviewerIdKey) == Get(a, WorkerIdKey) {
      return No;
    }
    if !ReviewedShape(review) {
      return Raised;
    }
    var covered := set x | x in Reviewed(review).items :: (Get(x.fields, IdKey), Get(x.fields, ReviewReferenceKey));
    var reference, comments := Get(rabbit, ReferenceKey), Get(rabbit, CommentsKey).items;
    forall id | IsText(id)
      ensures (id, reference) in covered <==> Examined(review, id.s, reference)
    {
      if x :| x in Reviewed(review).items && IsExamination(x, id.s, reference) {
        assert (Get(x.fields, IdKey), Get(x.fields, ReviewReferenceKey)) == (id, reference);
      }
    }
    return if forall x :: x in comments ==> (x, reference) in covered then Yes else No;
  }

  method CoderabbitResult(a: Record, rabbit: Record) returns (answer: Answer)
    ensures answer.Raised? <==> RabbitMalformed(a, rabbit)
    ensures !answer.Raised? ==> (answer.Yes? <==> RabbitSettled(a, rabbit))
  {
    if !IsText(Get(rabbit, ReferenceKey)) {
      return Raised;
    }
    if !RunFinished(rabbit) {
      return No;
    }
    if !RunShape(rabbit) {
      return Raised;
    }
    if !RunConsistent(rabbit) {
      return No;
    }
    if Get(rabbit, CommentsKey).items == [] {
      return Yes;
    }
    if !IsText(Get(rabbit, LocalReviewReferenceKey)) {
      return No;
    }
    for i := 2 to |ROLES|
      invariant i >= 3 ==> !Covers(a, rabbit, CodeReview) && !CoverMalformed(a, rabbit, CodeReview)
      invariant i >= 4 ==> !Covers(a, rabbit, DxReview) && !CoverMalformed(a, rabbit, DxReview)
    {
      answer := CoverOf(a, rabbit, ROLES[i]);
      if !answer.No? {
        CoverIsWellFormed(a, rabbit, ROLES[i]);
        return;
      }
    }
    return No;
  }

  lemma CoverIsWellFormed(a: Record, rabbit: Record, role: Role)
    ensures Covers(a, rabbit, role) ==> !CoverMalformed(a, rabbit, role)
  {
  }

  // ---------------------------------------------------------------- sections

  /** Blocking reasons stand in one list, the others in the other. */
  ghost predicate Sorted(blocked: seq<Reason>, pending: seq<Reason>) {
    (forall r :: r in blocked ==> IsBlocking(r)) && (forall r :: r in pending ==> !IsBlocking(r))
  }

  predicate Lists(blocked: seq<Reason>, pending: seq<Reason>, r: Reason) {
    r in blocked || r in pending
  }

  lemma Joined(b: seq<Reason>, p: seq<Reason>, c: seq<Reason>, q: seq<Reason>)
    requires Sorted(b, p) && Sorted(c, q)
    ensures Sorted(b + c, p + q)
    ensures forall r :: Lists(b + c, p + q, r) <==> Lists(b, p, r) || Lists(c, q, r)
  {
  }

  /** Append a reason if it applies. */
  function Noted(reasons: seq<Reason>, applies: bool, reason: Reason): (noted: seq<Reason>)
    ensures forall r :: r in noted <==> r in reasons || (applies && r == reason)
  {
    if applies then reasons + [reason] else reasons
  }

  predicate AllRecords(items: map<Key, Json>) {
    forall k :: k in items ==> items[k].Obj?
  }

  /** The search stops at the first uncertain merge, so it need not meet a malformed one. */
  method ExamineSupporting(a: Record) returns (readable: bool, uncertain: bool)
    ensures !readable ==> !SupportingOf(a).Obj? || !AllRecords(SupportingOf(a).fields)
    ensures readable ==> SupportingOf(a).Obj? && (uncertain <==> SupportingIsUncertain(a))
    ensures readable && !uncertain ==> AllRecords(SupportingOf(a).fields)
  {
    hide SupportingOf;
    if !SupportingOf(a).Obj? {
      return false, false;
    }
    var items := SupportingOf(a).fields;
    var rest := items.Keys;
    while rest != {}
      invariant rest <= items.Keys
      invariant forall k :: k in items && k !in rest ==> items[k].Obj? && !IsUncertain(items[k])
      decreases rest
    {
      var k := Pick(rest);
      rest := rest - {k};
      if !items[k].Obj? {
        return false, false;
      }
      if IsUncertain(items[k]) {
        return true, true;
      }
    }
    return true, false;
  }

  /** A malformed assignment may pass only behind an uncertain supporting merge, which is a reason itself. */
  method ExamineAssignment(a: Record, o: Record) returns (ok: bool, blocked: seq<Reason>, pending: seq<Reason>)
    ensures !ok ==> AssignmentMalformed(a)
    ensures ok && AssignmentMalformed(a) ==> SupportingUncertain in blocked
    ensures Sorted(blocked, pending)
    ensures forall r :: Lists(blocked, pending, r) ==> AssignmentHolds(a, o, r)
    ensures ok ==> forall r :: AssignmentHolds(a, o, r) ==> Lists(blocked, pending, r)
  {
    hide Current, IsShaText, IsText, IsCount, SupportingOf, SupportingIsUncertain;
    ok, blocked, pending := false, [], [];
    if !IsCount(Get(a, IssueKey), 1) || !IsShaText(Get(a, BaseShaKey)) || !IsShaText(Get(a, HeadShaKey))
       || !IsText(Get(a, IssueUpdatedAtKey))
    {
      return;
    }
    pending := Noted(pending, !Current(o, a), ScopeChanged);
    blocked := Noted(blocked, Get(a, ClaimStateKey) == Str("retired"), AssignmentRetired);
    var readable, uncertain := ExamineSupporting(a);
    if !readable {
      return;
    }
    blocked := Noted(blocked, uncertain, SupportingUncertain);
    if Get(a, BlockersKey).Arr? {
      blocked := Noted(blocked, Get(a, BlockersKey).items != [], HasBlockers);
      ok := true;
    }
  }

  method ExaminePullRequest(o: Record) returns (ok: bool, blocked: seq<Reason>, pending: seq<Reason>)
    ensures ok <==> !ThreadsMalformed(o)
    ensures Sorted(blocked, pending)
    ensures forall r :: Lists(blocked, pending, r) ==> PullRequestHolds(o, r)
    ensures ok ==> forall r :: PullRequestHolds(o, r) ==> Lists(blocked, pending, r)
  {
    pending := Noted([], Get(o, DraftKey) != Bool(false), DraftOrUnknown);
    var mergeable := Get(o, MergeableKey);
    blocked := Noted([], mergeable == Bool(false), MergeConflict);
    pending := Noted(pending, mergeable != Bool(false) && mergeable != Bool(true), MergeabilityUnknown);
    var threads := Get(o, UnresolvedReviewThreadsKey);
    ok := threads.Null? || IsCount(threads, 0);
    pending := Noted(pending, threads.Null?, ThreadsUnknown);
    blocked := Noted(blocked, ok && threads.Int? && threads.n > 0, ThreadsOpen);
  }

  method ExamineRole(a: Record, o: Record, role: Role)
    returns (ok: bool, blocked: seq<Reason>, pending: seq<Reason>)
    requires Evidence(a).Obj?
    ensures ok <==> !RoleMalformed(a, o, role)
    ensures Sorted(blocked, pending)
    ensures forall r :: Lists(blocked, pending, r) ==> RoleHolds(a, o, role, r)
    ensures ok ==> forall r :: RoleHolds(a, o, role, r) ==> Lists(blocked, pending, r)
  {
    ok, blocked, pending := true, [], [];
    if !Has(a, Receipt(role)) {
      pending := [MissingRole(role)];
    } else if !Item(a, Receipt(role)).Obj? || !IsText(Get(Item(a, Receipt(role)).fields, ReferenceKey)) {
      ok := false;
    } else if !Current(Item(a, Receipt(role)).fields, a) {
      pending := [StaleRole(role)];
    } else {
      ok, blocked, pending := ExamineLive(ContextOf(a, o, role), role);
    }
  }

  method ExamineLive(c: Context, role: Role) returns (ok: bool, blocked: seq<Reason>, pending: seq<Reason>)
    ensures ok <==> !LiveMalformed(c, role)
    ensures Sorted(blocked, pending)
    ensures forall r :: Lists(blocked, pending, r) ==> LiveHolds(c, role, r)
    ensures ok ==> forall r :: LiveHolds(c, role, r) ==> Lists(blocked, pending, r)
  {
    hide FindingsMalformed, FindingsOpen, Refuses;
    ok, blocked, pending := false, [], [];
    var reviewer := Get(c.review, ReviewerIdKey);
    if IsReview(role) && (!IsText(reviewer) || !IsText(Get(c.a, WorkerIdKey))) {
      return;
    }
    blocked := Noted(blocked, IsReview(role) && reviewer == Get(c.a, WorkerIdKey), SelfReviewed(role));
    var verdict := Get(c.review, VerdictKey);
    blocked := Noted(blocked, Refuses(verdict), RequiresChanges(role));
    pending := Noted(pending, !Refuses(verdict) && verdict != Str("ready"), IncompleteRole(role));
    var findings := FindingBlocks(c);
    ok := !findings.Raised?;
    blocked := Noted(blocked, findings.Yes?, OpenFindings(role));
  }

  predicate IsCheck(item: Json) {
    item.Obj? && IsText(Get(item.fields, NameKey))
  }

  function NameOf(item: Json): string
    requires IsCheck(item)
  {
    Get(item.fields, NameKey).s
  }

  /** The first i items are checks, and the index holds them by their names. */
  ghost predicate Holdings(items: seq<Json>, i: nat, checks: map<string, Record>)
    requires i <= |items|
  {
    forall j :: 0 <= j < i ==>
      IsCheck(items[j]) && NameOf(items[j]) in checks && checks[NameOf(items[j])] == items[j].fields
  }

  /** The index holds nothing else. */
  ghost predicate Sources(items: seq<Json>, i: nat, checks: map<string, Record>)
    requires i <= |items|
  {
    forall name :: name in checks ==> exists j :: 0 <= j < i && IsNamed(items[j], name)
  }

  ghost predicate NamesDiffer(items: seq<Json>, i: nat)
    requires i <= |items|
  {
    forall j, k :: 0 <= j < k < i && IsCheck(items[j]) && IsCheck(items[k]) ==> NameOf(items[j]) != NameOf(items[k])
  }

  /** The first i items are checks of different names, and the index holds exactly them. */
  ghost predicate Indexes(items: seq<Json>, i: nat, checks: map<string, Record>)
    requires i <= |items|
  {
    Holdings(items, i, checks) && Sources(items, i, checks) && NamesDiffer(items, i)
  }

  lemma HoldingsNext(items: seq<Json>, i: nat, checks: map<string, Record>)
    requires i < |items| && Holdings(items, i, checks) && IsCheck(items[i]) && NameOf(items[i]) !in checks
    ensures Holdings(items, i + 1, checks[NameOf(items[i]) := items[i].fields])
    ensures forall j :: 0 <= j < i ==> NameOf(items[j]) != NameOf(items[i])
  {
    hide NonBlank;
  }

  lemma SourcesNext(items: seq<Json>, i: nat, checks: map<string, Record>)
    requires i < |items| && Sources(items, i, checks) && IsCheck(items[i])
    ensures Sources(items, i + 1, checks[NameOf(items[i]) := items[i].fields])
  {
    hide NonBlank, IsNamed;
    NamedItself(items[i]);
    var name := NameOf(items[i]);
    var longer := checks[name := items[i].fields];
    forall other | other in longer
      ensures exists j :: 0 <= j < i + 1 && IsNamed(items[j], other)
    {
      if other != name {
        var j :| 0 <= j < i && IsNamed(items[j], other);
      }
    }
  }

  lemma IndexesNext(items: seq<Json>, i: nat, checks: map<string, Record>)
    requires i < |items| && Indexes(items, i, checks) && IsCheck(items[i]) && NameOf(items[i]) !in checks
    ensures Indexes(items, i + 1, checks[NameOf(items[i]) := items[i].fields])
  {
    hide Sources, IsText;
    HoldingsNext(items, i, checks);
    SourcesNext(items, i, checks);
  }

  lemma NamedItself(item: Json)
    requires IsCheck(item)
    ensures IsNamed(item, NameOf(item))
  {
  }

  lemma IndexedEarlier(items: seq<Json>, i: nat, checks: map<string, Record>, name: string)
    requires i <= |items| && Indexes(items, i, checks) && name in checks
    ensures exists j :: 0 <= j < i && IsNamed(items[j], name)
  {
    hide Holdings, NamesDiffer, IsNamed;
  }

  /** An item that is no check, or whose name came up before, spoils the list. */
  lemma ListRefuses(a: Record, i: nat)
    requires Checks(a).Arr? && i < |Checks(a).items|
    requires var items := Checks(a).items;
             !IsCheck(items[i]) || exists j :: 0 <= j < i && IsNamed(items[j], NameOf(items[i]))
    ensures !ChecksListed(a)
  {
    hide NonBlank;
    var items := Checks(a).items;
    if IsCheck(items[i]) {
      var j :| 0 <= j < i && IsNamed(items[j], NameOf(items[i]));
      assert Get(items[j].fields, NameKey) == Get(items[i].fields, NameKey);
    }
  }

  lemma IndexedFields(items: seq<Json>, checks: map<string, Record>, j: nat, name: string)
    requires j < |items| && Indexes(items, |items|, checks) && IsNamed(items[j], name)
    ensures name in checks && checks[name] == items[j].fields
  {
    hide NonBlank, Sources, NamesDiffer;
    assert NameOf(items[j]) == name;
  }

  lemma IndexIsExact(a: Record, checks: map<string, Record>, name: string)
    requires Checks(a).Arr? && Indexes(Checks(a).items, |Checks(a).items|, checks)
    ensures CheckOf(a, name) == if name in checks then Some(checks[name]) else None
  {
    hide Indexes, Checks;
    var items := Checks(a).items;
    if name in checks {
      IndexedEarlier(items, |items|, checks, name);
    }
    forall j: nat | j < |items| && IsNamed(items[j], name)
      ensures name in checks && checks[name] == items[j].fields
    {
      IndexedFields(items, checks, j, name);
    }
  }

  lemma IndexedIsListed(a: Record, checks: map<string, Record>)
    requires Checks(a).Arr? && Indexes(Checks(a).items, |Checks(a).items|, checks)
    ensures ChecksListed(a)
  {
    hide NonBlank, Sources;
    var items := Checks(a).items;
    forall i, j | 0 <= i < j < |items|
      ensures Get(items[i].fields, NameKey) != Get(items[j].fields, NameKey)
    {
      assert NameOf(items[i]) != NameOf(items[j]);
    }
  }

  /** The recorded checks by name. */
  method IndexChecks(a: Record) returns (ok: bool, checks: map<string, Record>)
    ensures ok <==> ChecksListed(a)
    ensures ok ==> forall name :: CheckOf(a, name) == if name in checks then Some(checks[name]) else None
  {
    hide Indexes, ChecksListed, NonBlank;
    checks := map[];
    if !Checks(a).Arr? {
      ListedIsArray(a);
      return false, checks;
    }
    var items := Checks(a).items;
    NothingIndexed(items);
    for i := 0 to |items|
      invariant Indexes(items, i, checks)
    {
      if !IsCheck(items[i]) || NameOf(items[i]) in checks {
        if IsCheck(items[i]) {
          IndexedEarlier(items, i, checks, NameOf(items[i]));
        }
        ListRefuses(a, i);
        return false, checks;
      }
      IndexesNext(items, i, checks);
      checks := checks[NameOf(items[i]) := items[i].fields];
    }
    ok := true;
    IndexedIsListed(a, checks);
    forall name {
      IndexIsExact(a, checks, name);
    }
  }

  lemma ListedIsArray(a: Record)
    ensures ChecksListed(a) ==> Checks(a).Arr?
  {
  }

  lemma NothingIndexed(items: seq<Json>)
    ensures Indexes(items, 0, map[])
  {
  }

  method ExamineChecks(a: Record, o: Record) returns (ok: bool, blocked: seq<Reason>, pending: seq<Reason>)
    requires Evidence(a).Obj?
    ensures ok <==> !ChecksMalformed(a, o)
    ensures Sorted(blocked, pending)
    ensures forall r :: Lists(blocked, pending, r) ==> ChecksHold(a, o, r)
    ensures ok ==> forall r :: ChecksHold(a, o, r) ==> Lists(blocked, pending, r)
  {
    hide NonBlank, CheckHolds, Unreadable, IsDistinct;
    ok, blocked, pending := false, [], [];
    if !RequiredNames(a) || !AreTexts(ObservedNames(o)) {
      return;
    }
    var required := Required(a).items;
    SetsDiffer(a, o);
    pending := Noted(pending, (set x | x in required) != (set x | x in ObservedNames(o).items), ChecksUnreconciled);
    var listed, checks := IndexChecks(a);
    if listed {
      var b, p;
      ok, b, p := GradeChecks(a, required, checks);
      Joined(blocked, pending, b, p);
      blocked, pending := blocked + b, pending + p;
    }
  }

  /** Grade the required checks in order. */
  method GradeChecks(a: Record, required: seq<Json>, checks: map<string, Record>)
    returns (ok: bool, blocked: seq<Reason>, pending: seq<Reason>)
    requires Required(a) == Arr(required) && forall x :: x in required ==> IsText(x)
    requires forall name :: CheckOf(a, name) == if name in checks then Some(checks[name]) else None
    ensures ok <==> forall name :: RequiresCheck(a, name) ==> !Unreadable(a, name)
    ensures Sorted(blocked, pending)
    ensures forall r :: Lists(blocked, pending, r) ==> SomeCheckHolds(a, r)
    ensures ok ==> forall r :: SomeCheckHolds(a, r) ==> Lists(blocked, pending, r)
  {
    hide CheckHolds, Unreadable;
    blocked, pending := [], [];
    for i := 0 to |required|
      invariant Sorted(blocked, pending)
      invariant forall r :: Lists(blocked, pending, r) ==> SomeCheckHolds(a, r)
      invariant forall name, r :: Str(name) in required[..i] && CheckHolds(a, name, r) ==> Lists(blocked, pending, r)
      invariant forall name :: Str(name) in required[..i] ==> !Unreadable(a, name)
    {
      assert required[..i + 1] == required[..i] + [required[i]] && IsText(required[i]);
      var name := required[i].s;
      assert RequiresCheck(a, name);
      var readable, reason := GradeCheck(a, checks, name);
      if !readable {
        return false, blocked, pending;
      }
      match reason
      case None =>
      case Some(r) =>
        assert CheckHolds(a, name, r) && SomeCheckHolds(a, r);
        blocked := Noted(blocked, IsBlocking(r), r);
        pending := Noted(pending, !IsBlocking(r), r);
    }
    assert required[..|required|] == required;
    ok := true;
  }

  lemma SetsDiffer(a: Record, o: Record)
    requires RequiredNames(a) && AreTexts(ObservedNames(o))
    ensures Unreconciled(a, o) <==> (set x | x in Required(a).items) != (set x | x in ObservedNames(o).items)
  {
    var p, q := (set x | x in Required(a).items), (set x | x in ObservedNames(o).items);
    if p != q {
      var x :| (x in p) != (x in q);
      assert IsText(x);
      assert RequiresCheck(a, x.s) != (Str(x.s) in ObservedNames(o).items);
    }
    forall name | RequiresCheck(a, name) != (Str(name) in ObservedNames(o).items)
      ensures p != q
    {
      assert (Str(name) in p) != (Str(name) in q);
    }
  }

  /** The one reason, if any, that a required check gives. */
  method GradeCheck(a: Record, checks: map<string, Record>, name: string)
    returns (readable: bool, reason: Option<Reason>)
    requires CheckOf(a, name) == if name in checks then Some(checks[name]) else None
    ensures readable <==> !Unreadable(a, name)
    ensures readable ==> forall r :: CheckHolds(a, name, r) <==> reason == Some(r)
  {
    hide CheckResult, FreshCheck, IsText, IsBot;
    if name !in checks {
      return true, Some(MissingCheck(name));
    }
    var check := checks[name];
    if !FreshCheck(check, a) {
      return true, Some(StaleCheck(name));
    }
    if !IsText(Get(check, ReferenceKey)) {
      return false, None;
    }
    var grade := CheckResult(check, IsBot(name));
    reason := match grade
      case Blocked => Some(FailedCheck(name))
      case Pending => Some(UnpassedCheck(name))
      case Ready => None;
    readable := true;
  }

  method ExamineBot(a: Record) returns (ok: bool, pending: seq<Reason>)
    requires Evidence(a).Obj?
    ensures ok <==> !BotMalformed(a)
    ensures Sorted([], pending)
    ensures forall r :: r in pending ==> BotHolds(a, r)
    ensures ok ==> forall r :: BotHolds(a, r) ==> r in pending
  {
    if !Has(a, CoderabbitKey) {
      return true, [RabbitMissing];
    }
    if !Item(a, CoderabbitKey).Obj? {
      return false, [];
    }
    var rabbit := Item(a, CoderabbitKey).fields;
    if !Current(rabbit, a) {
      return true, [RabbitStale];
    }
    var answer := CoderabbitResult(a, rabbit);
    ok := !answer.Raised?;
    pending := if answer.No? then [RabbitUnsettled] else [];
  }

  // ---------------------------------------------------------------- the assessment

  /** The body of the assessment: false once malformed evidence was met, with the lists as they then were. */
  method Examine(a: Record, o: Record) returns (ok: bool, blocked: seq<Reason>, pending: seq<Reason>)
    ensures !ok ==> IsMalformed(a, o)
    ensures ok && IsMalformed(a, o) ==> SupportingUncertain in blocked
    ensures Sorted(blocked, pending)
    ensures forall r :: Lists(blocked, pending, r) ==> Holds(a, o, r)
    ensures ok ==> forall r :: Holds(a, o, r) && r != Malformed ==> Lists(blocked, pending, r)
  {
    ok, blocked, pending := ExamineAssignment(a, o);
    if !ok {
      return;
    }
    var fine, b, p := ExaminePullRequest(o);
    Joined(blocked, pending, b, p);
    blocked, pending := blocked + b, pending + p;
    if !fine || !Evidence(a).Obj? {
      return false, blocked, pending;
    }
    fine, b, p := ExamineRoles(a, o);
    Joined(blocked, pending, b, p);
    blocked, pending := blocked + b, pending + p;
    if !fine {
      return false, blocked, pending;
    }
    fine, b, p := ExamineChecks(a, o);
    Joined(blocked, pending, b, p);
    blocked, pending := blocked + b, pending + p;
    if !fine {
      return false, blocked, pending;
    }
    ok, p := ExamineBot(a);
    Joined(blocked, pending, [], p);
    blocked, pending := blocked + [], pending + p;
  }

  method ExamineRoles(a: Record, o: Record) returns (ok: bool, blocked: seq<Reason>, pending: seq<Reason>)
    requires Evidence(a).Obj?
    ensures ok <==> !exists role :: role in ROLES && RoleMalformed(a, o, role)
    ensures Sorted(blocked, pending)
    ensures forall r :: Lists(blocked, pending, r) ==> RolesHold(a, o, r)
    ensures ok ==> forall r :: RolesHold(a, o, r) ==> Lists(blocked, pending, r)
  {
    hide RoleHolds, RoleMalformed;
    blocked, pending := [], [];
    for i := 0 to |ROLES|
      invariant Sorted(blocked, pending)
      invariant forall r :: Lists(blocked, pending, r) ==> RolesHold(a, o, r)
      invariant forall role :: role in ROLES[..i] ==> !RoleMalformed(a, o, role)
      invariant forall role, r :: role in ROLES[..i] && RoleHolds(a, o, role, r) ==> Lists(blocked, pending, r)
    {
      assert ROLES[..i + 1] == ROLES[..i] + [ROLES[i]];
      var fine, b, p := ExamineRole(a, o, ROLES[i]);
      assert ROLES[i] in ROLES;
      Joined(blocked, pending, b, p);
      blocked, pending := blocked + b, pending + p;
      if !fine {
        return false, blocked, pending;
      }
    }
    assert ROLES[..|ROLES|] == ROLES;
    ok := true;
  }

  /** The verdict is the declarative one; the reasons are exactly those that hold, the blocking ones first. */
  method AssessMerge(a: Record, o: Record) returns (result: Assessed)
    ensures result.verdict == VerdictOf(a, o)
    ensures forall r :: r in result.reasons ==> Holds(a, o, r)
    ensures Malformed !in result.reasons ==> forall r :: Holds(a, o, r) && r != Malformed ==> r in result.reasons
    ensures IsMalformed(a, o) ==> Malformed in result.reasons || SupportingUncertain in result.reasons
    ensures result.verdict.Ready? <==> result.reasons == []
    ensures forall i, j :: 0 <= i < j < |result.reasons| && IsBlocking(result.reasons[j]) ==>
              IsBlocking(result.reasons[i])
  {
    var ok, blocked, pending := Examine(a, o);
    if !ok {
      blocked := blocked + [Malformed];
      assert IsBlocking(Malformed) && Holds(a, o, Malformed);
    }
    var verdict := if blocked != [] then Blocked else if pending != [] then Pending else Ready;
    assert blocked != [] ==> IsBlocking(blocked[0]) && Holds(a, o, blocked[0]);
    assert pending != [] ==> Holds(a, o, pending[0]);
    result := Assessed(verdict, blocked + pending);
  }
}
