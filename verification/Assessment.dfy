/** What the merge assessor must decide: which reasons hold, and when a pull request is ready. */
module Assessment {
  import opened Text
  import opened Json

  // ---------------------------------------------------------------- reading evidence

  /** Python's case folding, as far as it can meet the lowercase ASCII words compared here. */
  function Fold(s: string): string {
    if s == "" then ""
    else (match s[0]
          case '\U{017F}' => "s"
          case '\U{212A}' => "k"
          case '\U{00DF}' => "ss"
          case '\U{1E9E}' => "ss"
          case '\U{FB00}' => "ff"
          case '\U{FB01}' => "fi"
          case '\U{FB02}' => "fl"
          case '\U{FB03}' => "ffi"
          case '\U{FB04}' => "ffl"
          case '\U{FB05}' => "st"
          case '\U{FB06}' => "st"
          case c => if 'A' <= c <= 'Z' then [c + 32 as char] else [c]) + Fold(s[1..])
  }

  predicate Folds(j: Json, word: string) {
    j.Str? && Fold(j.s) == word
  }

  function GetOr(record: Record, key: Key, default: Json): Json {
    if key in record then record[key] else default
  }

  predicate AreTexts(j: Json) {
    j.Arr? && forall x :: x in j.items ==> IsText(x)
  }

  /** The receipt identifies the source pair and issue revision of the assignment. */
  predicate Current(receipt: Record, a: Record) {
    && Same(Get(receipt, BaseShaKey), Get(a, BaseShaKey))
    && Same(Get(receipt, HeadShaKey), Get(a, HeadShaKey))
    && Same(Get(receipt, IssueUpdatedAtKey), Get(a, IssueUpdatedAtKey))
  }

  datatype Role = Acceptance | Documentation | CodeReview | DxReview

  const ROLES := [Acceptance, Documentation, CodeReview, DxReview]

  function Name(r: Role): string {
    match r
    case Acceptance => "acceptance"
    case Documentation => "documentation"
    case CodeReview => "code_review"
    case DxReview => "dx_review"
  }

  /** The evidence field that holds the role's receipt. */
  function Receipt(r: Role): Key {
    match r
    case Acceptance => AcceptanceKey
    case Documentation => DocumentationKey
    case CodeReview => CodeReviewKey
    case DxReview => DxReviewKey
  }

  predicate IsReview(r: Role) {
    r.CodeReview? || r.DxReview?
  }

  function Evidence(a: Record): Json {
    GetOr(a, EvidenceKey, Obj(map[]))
  }

  predicate Has(a: Record, key: Key) {
    Evidence(a).Obj? && key in Evidence(a).fields
  }

  function Item(a: Record, key: Key): Json
    requires Has(a, key)
  {
    Evidence(a).fields[key]
  }

  // ---------------------------------------------------------------- findings

  /** One review receipt with the context its findings are read in. */
  datatype Context = Context(role: string, review: Record, a: Record, o: Record)

  /** The risk record speaks about exactly this finding, and a human accepted it for this revision. */
  predicate Matches(risk: Record, finding: Record, c: Context) {
    && Same(Get(risk, FindingIdKey), Get(finding, IdKey))
    && Get(risk, RoleKey) == Str(c.role)
    && Same(Get(risk, ReviewReferenceKey), Get(c.review, ReferenceKey))
    && Same(Get(risk, PriorityKey), Int(2))
    && Get(risk, VerifiedHumanKey) == Bool(true)
    && (Get(risk, SourceKey) == Str("direct_user_instruction") || Get(risk, SourceKey) == Str("github_human_review"))
    && Current(risk, c.a)
  }

  predicate Signed(risk: Record) {
    IsText(Get(risk, AcceptedByKey)) && IsText(Get(risk, ReferenceKey)) && IsText(Get(risk, BoundedRiskKey))
  }

  function Risks(o: Record): Json {
    GetOr(o, HumanRiskAcceptancesKey, Arr([]))
  }

  /** The search for an acceptance ends at this item, by success or by malformation. */
  predicate Decides(item: Json, finding: Record, c: Context) {
    item.Obj? ==> Matches(item.fields, finding, c)
  }

  predicate FirstDecision(items: seq<Json>, i: nat, finding: Record, c: Context) {
    i < |items| && Decides(items[i], finding, c) && forall j :: 0 <= j < i ==> !Decides(items[j], finding, c)
  }

  /** A priority-2 finding whose first deciding risk record is a signed acceptance. */
  ghost predicate Accepted(finding: Record, c: Context) {
    && Same(Get(finding, PriorityKey), Int(2))
    && Risks(c.o).Arr?
    && exists i: nat :: FirstDecision(Risks(c.o).items, i, finding, c)
         && Risks(c.o).items[i].Obj? && Signed(Risks(c.o).items[i].fields)
  }

  ghost predicate RiskMalformed(finding: Record, c: Context) {
    && Same(Get(finding, PriorityKey), Int(2))
    && (!Risks(c.o).Arr?
        || exists i: nat :: FirstDecision(Risks(c.o).items, i, finding, c)
             && !(Risks(c.o).items[i].Obj? && Signed(Risks(c.o).items[i].fields)))
  }

  predicate SameId(x: Json, y: Json) {
    x.Obj? && y.Obj? && Get(x.fields, IdKey) == Get(y.fields, IdKey)
  }

  /** An unresolved finding of priority 0, 1 or 2. */
  predicate Material(f: Record) {
    Get(f, ResolvedKey) == Bool(false) && Get(f, PriorityKey).Int? && Get(f, PriorityKey).n <= 2
  }

  predicate FindingShape(f: Record) {
    && IsText(Get(f, IdKey))
    && IsCount(Get(f, PriorityKey), 0) && Get(f, PriorityKey).n <= 3
    && Get(f, ResolvedKey).Bool?
  }

  ghost predicate FindingMalformed(items: seq<Json>, i: nat, c: Context)
    requires i < |items|
  {
    || !items[i].Obj?
    || !FindingShape(items[i].fields)
    || (exists j :: 0 <= j < i && SameId(items[j], items[i]))
    || (Material(items[i].fields) && RiskMalformed(items[i].fields, c))
  }

  ghost predicate FindingsMalformed(c: Context) {
    var findings := Get(c.review, FindingsKey);
    || !IsText(Get(c.review, ReferenceKey))
    || !findings.Arr?
    || exists i: nat :: i < |findings.items| && FindingMalformed(findings.items, i, c)
  }

  ghost predicate OpenFinding(item: Json, c: Context) {
    item.Obj? && Material(item.fields) && !Accepted(item.fields, c)
  }

  ghost predicate FindingsOpen(c: Context) {
    var findings := Get(c.review, FindingsKey);
    findings.Arr? && exists i :: 0 <= i < |findings.items| && OpenFinding(findings.items[i], c)
  }

  // ---------------------------------------------------------------- checks

  datatype Grade = Ready | Pending | Blocked

  predicate Failing(conclusion: Json) {
    || conclusion == Str("failure") || conclusion == Str("timed_out")
    || conclusion == Str("action_required") || conclusion == Str("startup_failure")
  }

  /** A passed check: for the bot a completed run that found nothing, in any letter case; else a success that applies
      or an explained skip. */
  predicate CheckPassed(check: Record, bot: bool) {
    var conclusion, applies := Get(check, ConclusionKey), Get(check, ApplicableKey);
    if bot then
      && Folds(Get(check, StatusKey), "completed")
      && (Folds(conclusion, "success") || Folds(conclusion, "neutral") || Folds(conclusion, "skipped"))
    else
      || (conclusion == Str("success") && applies == Bool(true))
      || (conclusion == Str("skipped") && applies == Bool(false) && IsText(Get(check, ExplanationKey)))
  }

  /** A failed check; a bot run cannot fail before it is completed. */
  predicate CheckFailed(check: Record, bot: bool) {
    var conclusion := Get(check, ConclusionKey);
    if bot then
      && Folds(Get(check, StatusKey), "completed")
      && (Folds(conclusion, "failure") || Folds(conclusion, "timed_out")
          || Folds(conclusion, "action_required") || Folds(conclusion, "startup_failure"))
    else Failing(conclusion)
  }

  function CheckResult(check: Record, bot: bool): (grade: Grade)
    ensures grade.Ready? <==> CheckPassed(check, bot)
    ensures grade.Blocked? <==> CheckFailed(check, bot)
  {
    var raw := Get(check, ConclusionKey);
    if bot && !Folds(Get(check, StatusKey), "completed") then Pending
    else
      var conclusion := if bot && raw.Str? then Str(Fold(raw.s)) else raw;
      if Failing(conclusion) then Blocked
      else if bot then
        if conclusion == Str("success") || conclusion == Str("neutral") || conclusion == Str("skipped")
        then Ready else Pending
      else if conclusion == Str("success") && Get(check, ApplicableKey) == Bool(true) then Ready
      else if conclusion == Str("skipped") && Get(check, ApplicableKey) == Bool(false)
              && IsText(Get(check, ExplanationKey)) then Ready
      else Pending
  }

  function Required(a: Record): Json {
    Get(a, RequiredChecksKey)
  }

  predicate RequiredNames(a: Record) {
    AreTexts(Required(a)) && Required(a).items != [] && IsDistinct(Required(a).items)
  }

  /** The check names that GitHub requires, where nothing observed means none. */
  function ObservedNames(o: Record): Json {
    if Get(o, RequiredChecksKey).Null? then Arr([]) else Get(o, RequiredChecksKey)
  }

  function Checks(a: Record): Json {
    if Evidence(a).Obj? then GetOr(Evidence(a).fields, ChecksKey, Arr([])) else Arr([])
  }

  predicate IsNamed(item: Json, name: string) {
    item.Obj? && Get(item.fields, NameKey) == Str(name)
  }

  ghost predicate ChecksListed(a: Record) {
    && Checks(a).Arr?
    && (forall i :: 0 <= i < |Checks(a).items| ==>
          Checks(a).items[i].Obj? && IsText(Get(Checks(a).items[i].fields, NameKey)))
    && (forall i, j :: 0 <= i < j < |Checks(a).items| && Checks(a).items[i].Obj? && Checks(a).items[j].Obj? ==>
          Get(Checks(a).items[i].fields, NameKey) != Get(Checks(a).items[j].fields, NameKey))
  }

  predicate FreshCheck(check: Record, a: Record) {
    Same(Get(check, HeadShaKey), Get(a, HeadShaKey)) && Same(Get(check, BaseShaKey), Get(a, BaseShaKey))
  }

  predicate IsBot(name: string) {
    Fold(name) == "coderabbit"
  }

  predicate RequiresCheck(a: Record, name: string) {
    Required(a).Arr? && Str(name) in Required(a).items
  }

  /** The check recorded under this name; a well-formed list has at most one. */
  ghost function CheckOf(a: Record, name: string): Option<Record> {
    if Checks(a).Arr? && exists i :: 0 <= i < |Checks(a).items| && IsNamed(Checks(a).items[i], name) then
      var i :| 0 <= i < |Checks(a).items| && IsNamed(Checks(a).items[i], name);
      Some(Checks(a).items[i].fields)
    else None
  }

  ghost predicate Graded(a: Record, name: string, grade: Grade) {
    var check := CheckOf(a, name);
    check.Some? && FreshCheck(check.value, a) && CheckResult(check.value, IsBot(name)) == grade
  }

  /** A required check of the present revision that does not say where it was observed. */
  ghost predicate Unreadable(a: Record, name: string) {
    var check := CheckOf(a, name);
    check.Some? && FreshCheck(check.value, a) && !IsText(Get(check.value, ReferenceKey))
  }

  // ---------------------------------------------------------------- the review bot

  /** This local review answers for the bot's run: current, ready, independent and referenced by it. */
  predicate Answers(review: Record, local: Json, a: Record) {
    && Same(Get(review, ReferenceKey), local) && Current(review, a) && Get(review, VerdictKey) == Str("ready")
  }

  function Reviewed(review: Record): Json {
    GetOr(review, ReviewedCommentsKey, Arr([]))
  }

  predicate ReviewedShape(review: Record) {
    Reviewed(review).Arr? && forall x :: x in Reviewed(review).items ==>
      x.Obj? && IsText(Get(x.fields, IdKey)) && IsText(Get(x.fields, ReviewReferenceKey))
  }

  predicate IsExamination(x: Json, id: string, reference: Json) {
    x.Obj? && Get(x.fields, IdKey) == Str(id) && Get(x.fields, ReviewReferenceKey) == reference
  }

  /** The review examined this comment of the bot's run. */
  ghost predicate Examined(review: Record, id: string, reference: Json) {
    && Reviewed(review).Arr?
    && exists x :: x in Reviewed(review).items && IsExamination(x, id, reference)
  }

  predicate Candidate(a: Record, rabbit: Record, role: Role) {
    && Has(a, Receipt(role)) && Item(a, Receipt(role)).Obj?
    && Answers(Item(a, Receipt(role)).fields, Get(rabbit, LocalReviewReferenceKey), a)
  }

  predicate CoverMalformed(a: Record, rabbit: Record, role: Role) {
    Has(a, Receipt(role)) &&
    (!Item(a, Receipt(role)).Obj?
     || (Candidate(a, rabbit, role)
         && var review := Item(a, Receipt(role)).fields;
            !IsText(Get(review, ReviewerIdKey))
            || (Get(review, ReviewerIdKey) != Get(a, WorkerIdKey) && !ReviewedShape(review))))
  }

  ghost predicate Covers(a: Record, rabbit: Record, role: Role) {
    && Candidate(a, rabbit, role)
    && var review := Item(a, Receipt(role)).fields;
    && IsText(Get(review, ReviewerIdKey)) && Get(review, ReviewerIdKey) != Get(a, WorkerIdKey)
    && ReviewedShape(review)
    && Get(rabbit, CommentsKey).Arr?
    && forall x :: x in Get(rabbit, CommentsKey).items ==>
         x.Str? && Examined(review, x.s, Get(rabbit, ReferenceKey))
  }

  predicate RunFinished(rabbit: Record) {
    && (Folds(Get(rabbit, StatusKey), "completed") || Folds(Get(rabbit, StatusKey), "not_reported"))
    && ConclusionKey in rabbit && CommentsKey in rabbit
  }

  predicate RunShape(rabbit: Record) {
    && (Get(rabbit, ConclusionKey).Null? || IsText(Get(rabbit, ConclusionKey)))
    && AreTexts(Get(rabbit, CommentsKey)) && IsDistinct(Get(rabbit, CommentsKey).items)
  }

  /** A run reported as absent has neither a conclusion nor comments. */
  predicate RunConsistent(rabbit: Record) {
    Folds(Get(rabbit, StatusKey), "not_reported") ==>
      Get(rabbit, ConclusionKey).Null? && Get(rabbit, CommentsKey) == Arr([])
  }

  predicate NeedsCover(rabbit: Record) {
    && RunFinished(rabbit) && RunShape(rabbit) && RunConsistent(rabbit)
    && Get(rabbit, CommentsKey) != Arr([])
    && IsText(Get(rabbit, LocalReviewReferenceKey))
  }

  ghost predicate RabbitMalformed(a: Record, rabbit: Record) {
    || !IsText(Get(rabbit, ReferenceKey))
    || (RunFinished(rabbit) && !RunShape(rabbit))
    || (NeedsCover(rabbit)
        && (CoverMalformed(a, rabbit, CodeReview)
            || (!Covers(a, rabbit, CodeReview) && CoverMalformed(a, rabbit, DxReview))))
  }

  /** The observed run is over and every comment it left was examined by one local review. */
  ghost predicate RabbitSettled(a: Record, rabbit: Record) {
    && RunFinished(rabbit) && RunShape(rabbit) && RunConsistent(rabbit)
    && (Get(rabbit, CommentsKey) == Arr([])
        || (IsText(Get(rabbit, LocalReviewReferenceKey))
            && (Covers(a, rabbit, CodeReview) || Covers(a, rabbit, DxReview))))
  }

  // ---------------------------------------------------------------- reasons

  datatype Reason =
    | Malformed
    | AssignmentRetired | SupportingUncertain | HasBlockers | MergeConflict | ThreadsOpen
    | SelfReviewed(role: Role) | RequiresChanges(role: Role) | OpenFindings(role: Role)
    | FailedCheck(name: string)
    | ScopeChanged | DraftOrUnknown | MergeabilityUnknown | ThreadsUnknown
    | MissingRole(role: Role) | StaleRole(role: Role) | IncompleteRole(role: Role)
    | ChecksUnreconciled | MissingCheck(name: string) | StaleCheck(name: string) | UnpassedCheck(name: string)
    | RabbitMissing | RabbitStale | RabbitUnsettled

  predicate IsBlocking(r: Reason) {
    || r.Malformed?
    || r.AssignmentRetired? || r.SupportingUncertain? || r.HasBlockers? || r.MergeConflict? || r.ThreadsOpen?
    || r.SelfReviewed? || r.RequiresChanges? || r.OpenFindings? || r.FailedCheck?
  }

  function SupportingOf(a: Record): Json {
    GetOr(a, PrerequisiteMergesKey, Obj(map[]))
  }

  predicate IsUncertain(item: Json) {
    item.Obj? && Get(item.fields, StatusKey) == Str("uncertain")
  }

  predicate AssignmentMalformed(a: Record) {
    || !IsCount(Get(a, IssueKey), 1)
    || !IsShaText(Get(a, BaseShaKey)) || !IsShaText(Get(a, HeadShaKey)) || !IsText(Get(a, IssueUpdatedAtKey))
    || !SupportingOf(a).Obj?
    || (exists k :: k in SupportingOf(a).fields && !SupportingOf(a).fields[k].Obj?)
    || !Get(a, BlockersKey).Arr?
  }

  predicate ThreadsMalformed(o: Record) {
    var threads := Get(o, UnresolvedReviewThreadsKey);
    !threads.Null? && !IsCount(threads, 0)
  }

  /** The receipt of this role is present, and for the present revision. */
  predicate Live(a: Record, role: Role) {
    Has(a, Receipt(role)) && Item(a, Receipt(role)).Obj? && Current(Item(a, Receipt(role)).fields, a)
  }

  function ContextOf(a: Record, o: Record, role: Role): Context
    requires Live(a, role)
  {
    Context(Name(role), Item(a, Receipt(role)).fields, a, o)
  }

  ghost predicate RoleMalformed(a: Record, o: Record, role: Role) {
    Has(a, Receipt(role)) &&
    (|| !Item(a, Receipt(role)).Obj?
     || !IsText(Get(Item(a, Receipt(role)).fields, ReferenceKey))
     || (Live(a, role) && LiveMalformed(ContextOf(a, o, role), role)))
  }

  ghost predicate LiveMalformed(c: Context, role: Role) {
    || (IsReview(role) && !(IsText(Get(c.review, ReviewerIdKey)) && IsText(Get(c.a, WorkerIdKey))))
    || FindingsMalformed(c)
  }

  ghost predicate ChecksMalformed(a: Record, o: Record) {
    || !RequiredNames(a)
    || !AreTexts(ObservedNames(o))
    || !ChecksListed(a)
    || exists name :: RequiresCheck(a, name) && Unreadable(a, name)
  }

  ghost predicate BotMalformed(a: Record) {
    Has(a, CoderabbitKey) &&
    (!Item(a, CoderabbitKey).Obj?
     || (Current(Item(a, CoderabbitKey).fields, a) && RabbitMalformed(a, Item(a, CoderabbitKey).fields)))
  }

  ghost predicate IsMalformed(a: Record, o: Record) {
    || AssignmentMalformed(a)
    || ThreadsMalformed(o)
    || !Evidence(a).Obj?
    || (exists role :: role in ROLES && RoleMalformed(a, o, role))
    || ChecksMalformed(a, o)
    || BotMalformed(a)
  }

  ghost predicate SupportingIsUncertain(a: Record) {
    SupportingOf(a).Obj? && exists k :: k in SupportingOf(a).fields && IsUncertain(SupportingOf(a).fields[k])
  }

  /** When the reasons about the assignment apply. */
  ghost predicate AssignmentHolds(a: Record, o: Record, r: Reason) {
    match r
    case ScopeChanged => !Current(o, a)
    case AssignmentRetired => Get(a, ClaimStateKey) == Str("retired")
    case SupportingUncertain => SupportingIsUncertain(a)
    case HasBlockers => Get(a, BlockersKey).Arr? && Get(a, BlockersKey) != Arr([])
    case _ => false
  }

  /** When the reasons about the pull request apply. */
  ghost predicate PullRequestHolds(o: Record, r: Reason) {
    match r
    case MergeConflict => Get(o, MergeableKey) == Bool(false)
    case ThreadsOpen => IsCount(Get(o, UnresolvedReviewThreadsKey), 1)
    case DraftOrUnknown => Get(o, DraftKey) != Bool(false)
    case MergeabilityUnknown => !Get(o, MergeableKey).Bool?
    case ThreadsUnknown => Get(o, UnresolvedReviewThreadsKey).Null?
    case _ => false
  }

  /** When the reasons about one reviewing role apply. */
  ghost predicate RoleHolds(a: Record, o: Record, role: Role, r: Reason) {
    match r
    case MissingRole(x) => x == role && !Has(a, Receipt(role))
    case StaleRole(x) => x == role && Has(a, Receipt(role)) && Item(a, Receipt(role)).Obj? && !Live(a, role)
    case _ => Live(a, role) && LiveHolds(ContextOf(a, o, role), role, r)
  }

  /** When the reasons about a receipt of the present revision apply. */
  ghost predicate LiveHolds(c: Context, role: Role, r: Reason) {
    match r
    case SelfReviewed(x) => x == role && IsReview(role) && Get(c.review, ReviewerIdKey) == Get(c.a, WorkerIdKey)
    case RequiresChanges(x) => x == role && Refuses(Get(c.review, VerdictKey))
    case IncompleteRole(x) =>
      x == role && !Refuses(Get(c.review, VerdictKey)) && Get(c.review, VerdictKey) != Str("ready")
    case OpenFindings(x) => x == role && FindingsOpen(c)
    case _ => false
  }

  predicate Refuses(verdict: Json) {
    verdict == Str("changes_needed") || verdict == Str("blocked")
  }

  /** When the reasons about one required check apply. */
  ghost predicate CheckHolds(a: Record, name: string, r: Reason) {
    match r
    case MissingCheck(x) => x == name && CheckOf(a, name).None?
    case StaleCheck(x) => x == name && CheckOf(a, name).Some? && !FreshCheck(CheckOf(a, name).value, a)
    case FailedCheck(x) => x == name && Graded(a, name, Blocked)
    case UnpassedCheck(x) => x == name && Graded(a, name, Pending)
    case _ => false
  }

  /** GitHub requires other checks than the assignment does. */
  ghost predicate Unreconciled(a: Record, o: Record) {
    exists name :: RequiresCheck(a, name) != (ObservedNames(o).Arr? && Str(name) in ObservedNames(o).items)
  }

  /** When the reasons about the review bot apply. */
  ghost predicate BotHolds(a: Record, r: Reason) {
    match r
    case RabbitMissing => !Has(a, CoderabbitKey)
    case RabbitStale =>
      Has(a, CoderabbitKey) && Item(a, CoderabbitKey).Obj? && !Current(Item(a, CoderabbitKey).fields, a)
    case RabbitUnsettled =>
      Has(a, CoderabbitKey) && Item(a, CoderabbitKey).Obj? && Current(Item(a, CoderabbitKey).fields, a)
      && !RabbitSettled(a, Item(a, CoderabbitKey).fields)
    case _ => false
  }

  ghost predicate SomeCheckHolds(a: Record, r: Reason) {
    exists name :: RequiresCheck(a, name) && CheckHolds(a, name, r)
  }

  ghost predicate RolesHold(a: Record, o: Record, r: Reason) {
    exists role :: role in ROLES && RoleHolds(a, o, role, r)
  }

  ghost predicate ChecksHold(a: Record, o: Record, r: Reason) {
    || (r.ChecksUnreconciled? && Unreconciled(a, o))
    || SomeCheckHolds(a, r)
  }

  /** Exactly when each reason applies. */
  ghost predicate Holds(a: Record, o: Record, r: Reason) {
    || (r.Malformed? && IsMalformed(a, o))
    || AssignmentHolds(a, o, r)
    || PullRequestHolds(o, r)
    || RolesHold(a, o, r)
    || ChecksHold(a, o, r)
    || BotHolds(a, r)
  }

  /** Blocked on any blocking reason, malformed evidence included; ready only when no reason holds at all. */
  ghost function VerdictOf(a: Record, o: Record): Grade {
    if exists r :: IsBlocking(r) && Holds(a, o, r) then Blocked
    else if exists r :: Holds(a, o, r) then Pending
    else Ready
  }
}
