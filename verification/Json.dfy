/** JSON values as Python reads them, with Python's equality and checked accessors. */
module Json {
  import opened Text

  /** The field names that the delivery tools read, and every other one by its text. */
  datatype Key =
    | BaseShaKey | HeadShaKey | IssueUpdatedAtKey | AcceptanceKey | DocumentationKey | CodeReviewKey
    | DxReviewKey | EvidenceKey | FindingIdKey | IdKey | RoleKey | ReviewReferenceKey | ReferenceKey
    | PriorityKey | VerifiedHumanKey | SourceKey | AcceptedByKey | BoundedRiskKey | HumanRiskAcceptancesKey
    | ResolvedKey | FindingsKey | ConclusionKey | StatusKey | ApplicableKey | ExplanationKey
    | RequiredChecksKey | ChecksKey | NameKey | VerdictKey | ReviewedCommentsKey | LocalReviewReferenceKey
    | ReviewerIdKey | WorkerIdKey | CommentsKey | PrerequisiteMergesKey | IssueKey | BlockersKey
    | UnresolvedReviewThreadsKey | ClaimStateKey | DraftKey | MergeableKey | CoderabbitKey | PrKey | ScopeKey
    | RemainingAcceptanceKey | ScopeReviewKey | DeferredBlockersKey | DependencyRationaleKey | ObservationKey
    | ClosingIssuesKey | MergeStateKey
    | OtherKey(name: string)

  datatype Json =
    | Null
    | Bool(b: bool)
    | Int(n: int)
    | Float(r: real)
    | Str(s: string)
    | Arr(items: seq<Json>)
    | Obj(fields: map<Key, Json>)

  type Record = map<Key, Json>

  /** `True == 1 == 1.0` in Python. */
  function Number(j: Json): Option<real> {
    match j
    case Bool(b) => Some(if b then 1.0 else 0.0)
    case Int(n) => Some(n as real)
    case Float(r) => Some(r)
    case _ => None
  }

  /** Python's `==` */
  predicate Same(a: Json, b: Json) {
    match (a, b)
    case (Null, Null) => true
    case (Str(s), Str(t)) => s == t
    case (Arr(xs), Arr(ys)) => |xs| == |ys| && forall i :: 0 <= i < |xs| ==> Same(xs[i], ys[i])
    case (Obj(f), Obj(g)) => f.Keys == g.Keys && forall k :: k in f && k in g ==> Same(f[k], g[k])
    case _ => Number(a).Some? && Number(a) == Number(b)
  }

  /** Texts equal only themselves, numbers and Booleans the numbers of the same value, and nothing else a null. */
  lemma SameScalars(a: Json, b: Json)
    ensures b.Str? ==> (Same(a, b) <==> a == b)
    ensures b.Null? ==> (Same(a, b) <==> a == b)
    ensures match (a, b)
            case (Int(m), Int(n)) => Same(a, b) <==> m == n
            case (Bool(x), Bool(y)) => Same(a, b) <==> x == y
            case (Float(x), Float(y)) => Same(a, b) <==> x == y
            case (Bool(x), Int(n)) => Same(a, b) <==> n == if x then 1 else 0
            case (Int(m), Float(y)) => Same(a, b) <==> m as real == y
            case (Bool(x), Float(y)) => Same(a, b) <==> y == if x then 1.0 else 0.0
            case (Str(x), Int(_)) => !Same(a, b)
            case (Arr(_), Int(_)) => !Same(a, b)
            case (Obj(_), Int(_)) => !Same(a, b)
            case (Arr(_), Obj(_)) => !Same(a, b)
            case _ => true
    ensures b == Arr([]) ==> (Same(a, b) <==> a == b)
  {
  }

  /** Equality is an equivalence, so "the same receipt field" may be passed along. */
  lemma {:induction false} SameReflexive(a: Json)
    ensures Same(a, a)
  {
    match a
    case Arr(xs) => forall i | 0 <= i < |xs| { SameReflexive(xs[i]); }
    case Obj(f) => forall k | k in f { SameReflexive(f[k]); }
    case _ =>
  }

  lemma {:induction false} SameSymmetric(a: Json, b: Json)
    requires Same(a, b)
    ensures Same(b, a)
  {
    match a
    case Arr(xs) => forall i | 0 <= i < |xs| { SameSymmetric(xs[i], b.items[i]); }
    case Obj(f) => forall k | k in f { SameSymmetric(f[k], b.fields[k]); }
    case _ =>
  }

  lemma {:induction false} SameTransitive(a: Json, b: Json, c: Json)
    requires Same(a, b) && Same(b, c)
    ensures Same(a, c)
  {
    match a
    case Arr(xs) => forall i | 0 <= i < |xs| { SameTransitive(xs[i], b.items[i], c.items[i]); }
    case Obj(f) =>
      forall k | k in f { SameTransitive(f[k], b.fields[k], c.fields[k]); }
    case _ =>
  }

  /** `record.get(key)`: a missing field reads as null. */
  function Get(record: Record, key: Key): Json {
    if key in record then record[key] else Null
  }

  /** A value that `string_value` accepts. */
  predicate IsText(j: Json) {
    j.Str? && NonBlank(j.s)
  }

  /** A value that `integer_value` accepts; a Boolean is not an integer. */
  predicate IsCount(j: Json, minimum: int) {
    j.Int? && j.n >= minimum
  }

  predicate IsShaText(j: Json) {
    j.Str? && IsSha(j.s)
  }

  /** What the checked accessors accept, on the values themselves. */
  lemma AccessorsExactly(j: Json, minimum: int)
    ensures IsText(j) <==> exists s :: j == Str(s) && Strip(s) != ""
    ensures IsCount(j, minimum) <==> exists n :: j == Int(n) && n >= minimum
    ensures IsShaText(j) <==> exists s :: j == Str(s) && |s| == 40 && forall c :: c in s ==> c in "0123456789abcdef"
  {
    hide Strip, NonBlank, IsSha;
    if j.Str? {
      NonBlankExactly(j.s);
      IdentifiersExactly(j.s);
    }
  }
}
