/** What every run of the store keeps. */
module Runs {
  import opened Text
  import opened Json
  import opened Coordination

  function Fresh(header: Header): State {
    State(header, 1, 0, map[], map[], map[])
  }

  ghost predicate Commits(s: State, r: Request, t: State) {
    Targeted(s, r) && Admits(s, r) && !Refused(s, r) && t == Committed(s, r)
  }

  /** A run starts from an initialized record and publishes one record a request. */
  ghost predicate IsRun(states: seq<State>, requests: seq<Request>) {
    && |states| == |requests| + 1
    && states[0] == Fresh(states[0].header) && ValidState(states[0])
    && forall i :: 0 <= i < |requests| ==> Commits(states[i], requests[i], states[i + 1])
  }

  lemma {:induction false} StatesAreValid(states: seq<State>, requests: seq<Request>, n: nat)
    requires IsRun(states, requests) && n <= |requests|
    ensures |states| == |requests| + 1
    ensures ValidState(states[n]) && states[n].revision == n && states[n].header == states[0].header
  {
    hide Admits, ValidState;
    if n > 0 {
      StatesAreValid(states, requests, n - 1);
      assert Commits(states[n - 1], requests[n - 1], states[n]);
      Preservation(states[n - 1], requests[n - 1]);
    }
  }

  /** One step of a run. */
  lemma RunStep(states: seq<State>, requests: seq<Request>, n: nat)
    requires IsRun(states, requests) && 0 < n <= |requests|
    ensures |states| == |requests| + 1
    ensures var s, r, t := states[n - 1], requests[n - 1], states[n];
            Commits(s, r, t) && Targeted(s, r) && t == Committed(s, r) && s.revision == n - 1
  {
    hide Admits, ValidState;
    StatesAreValid(states, requests, n - 1);
    assert Commits(states[n - 1], requests[n - 1], states[n]);
  }

  lemma RevisionsAreNatural(states: seq<State>, requests: seq<Request>)
    ensures IsRun(states, requests) ==> states[|requests|].revision >= 0
  {
    if IsRun(states, requests) {
      StatesAreValid(states, requests, |requests|);
    }
  }

  lemma RunExtends(states: seq<State>, requests: seq<Request>, r: Request)
    requires IsRun(states, requests) && Targeted(states[|requests|], r)
    requires Admits(states[|requests|], r) && !Refused(states[|requests|], r)
    ensures IsRun(states + [Committed(states[|requests|], r)], requests + [r])
  {
    var longer, asked := states + [Committed(states[|requests|], r)], requests + [r];
    forall i | 0 <= i < |asked|
      ensures Commits(longer[i], asked[i], longer[i + 1])
    {
      if i < |requests| {
        assert Commits(states[i], requests[i], states[i + 1]);
      }
    }
  }

  // ---------------------------------------------------------------- journal

  /** The events that a run should have left in an issue's history, read off the run itself. */
  ghost function Journal(states: seq<State>, requests: seq<Request>, n: nat, k: int): seq<Event>
    requires n <= |requests| < |states|
  {
    if n == 0 then []
    else
      var s, op := states[n - 1], requests[n - 1].operation;
      var earlier := Journal(states, requests, n - 1, k);
      if Archives(op) && Target(s, op) == k && k in s.assignments
      then earlier + [Event(n, op, s.assignments[k].now)]
      else earlier
  }

  lemma StartsEmpty(states: seq<State>, requests: seq<Request>)
    requires IsRun(states, requests)
    ensures states[0].assignments == map[] && states[0].resources == map[] && states[0].observations == map[]
  {
    hide Commits, ValidState;
  }

  /** Histories are exactly the journal of the run: nothing is dropped, rewritten or invented. */
  lemma {:induction false} HistoryIsJournal(states: seq<State>, requests: seq<Request>, n: nat, k: int)
    requires IsRun(states, requests) && n <= |requests|
    ensures k in states[n].assignments ==> states[n].assignments[k].history == Journal(states, requests, n, k)
    ensures k !in states[n].assignments ==> Journal(states, requests, n, k) == []
  {
    hide IsRun, Commits;
    if n > 0 {
      RunStep(states, requests, n);
      HistoryIsJournal(states, requests, n - 1, k);
      Shape(states[n - 1], requests[n - 1]);
    } else {
      StartsEmpty(states, requests);
    }
  }

  /** Each event names its revision, its operation and the fields it replaced; revisions increase. */
  lemma {:induction false} JournalEntries(states: seq<State>, requests: seq<Request>, n: nat, k: int, h: seq<Event>)
    requires n <= |requests| < |states|
    requires h == Journal(states, requests, n, k)
    ensures forall i :: 0 <= i < |h| ==> IsEntry(states, requests, n, k, h[i])
    ensures forall i, j :: 0 <= i < j < |h| ==> h[i].revision < h[j].revision
  {
    if n > 0 {
      var earlier := Journal(states, requests, n - 1, k);
      JournalEntries(states, requests, n - 1, k, earlier);
      forall i | 0 <= i < |h|
        ensures IsEntry(states, requests, n, k, h[i])
        ensures i < |earlier| ==> h[i].revision < n
      {
        assert i < |earlier| ==> IsEntry(states, requests, n - 1, k, earlier[i]);
      }
    }
  }

  ghost predicate IsEntry(states: seq<State>, requests: seq<Request>, n: nat, k: int, e: Event)
    requires n <= |requests| < |states|
  {
    && 1 <= e.revision <= n
    && var s, op := states[e.revision - 1], requests[e.revision - 1].operation;
    && Archives(op) && Target(s, op) == k && k in s.assignments
    && e == Event(e.revision, op, s.assignments[k].now)
  }

  /** Histories only grow, never claim a future revision and never share one between issues. */
  lemma HistoriesAreOrdered(states: seq<State>, requests: seq<Request>, n: nat, j: int, k: int)
    requires IsRun(states, requests) && n <= |requests|
    requires j in states[n].assignments && k in states[n].assignments
    ensures var g, h := states[n].assignments[j].history, states[n].assignments[k].history;
            && (forall a, b :: 0 <= a < b < |h| ==> h[a].revision < h[b].revision)
            && (forall a :: 0 <= a < |h| ==> 1 <= h[a].revision <= states[n].revision)
            && (j != k ==> forall a, b :: 0 <= a < |g| && 0 <= b < |h| ==> g[a].revision != h[b].revision)
  {
    hide IsRun, ValidState;
    StatesAreValid(states, requests, n);
    HistoryIsJournal(states, requests, n, j);
    HistoryIsJournal(states, requests, n, k);
    var g, h := states[n].assignments[j].history, states[n].assignments[k].history;
    JournalEntries(states, requests, n, j, g);
    JournalEntries(states, requests, n, k, h);
    forall a, b | j != k && 0 <= a < |g| && 0 <= b < |h|
      ensures g[a].revision != h[b].revision
    {
      assert IsEntry(states, requests, n, j, g[a]) && IsEntry(states, requests, n, k, h[b]);
    }
  }

  /** Equal in everything but evidence, the one field that changes without being archived. */
  predicate Lasting(a: Snapshot, b: Snapshot) {
    a.(evidence := map[]) == b.(evidence := map[])
  }

  /** Whatever an issue's fields once were is still current or is archived by a later event. */
  lemma {:induction false} NothingIsLost(states: seq<State>, requests: seq<Request>, m: nat, n: nat, k: int)
    requires IsRun(states, requests) && m <= n <= |requests| && k in states[m].assignments
    ensures k in states[n].assignments
    ensures states[m].assignments[k].history <= states[n].assignments[k].history
    ensures var past, a := states[m].assignments[k].now, states[n].assignments[k];
            || Lasting(past, a.now)
            || exists e :: e in a.history && e.revision > m && Lasting(past, e.previous)
  {
    hide IsRun, Commits;
    if m < n {
      RunStep(states, requests, n);
      NothingIsLost(states, requests, m, n - 1, k);
      var s, r, t := states[n - 1], requests[n - 1], states[n];
      Shape(s, r);
      var past, b, c := states[m].assignments[k].now, s.assignments[k], t.assignments[k];
      if Lasting(past, b.now) {
        if k == Target(s, r.operation) && Archives(r.operation) {
          var e := c.history[|b.history|];
          assert e in c.history && Lasting(past, e.previous);
        }
      } else {
        var e :| e in b.history && e.revision > m && Lasting(past, e.previous);
        assert e in c.history;
      }
    }
  }

  /** An assigned issue stays assigned, so it can be adopted but never claimed again. */
  lemma NeverClaimedAgain(states: seq<State>, requests: seq<Request>, m: nat, n: nat, k: int)
    requires IsRun(states, requests) && m <= n < |requests| && k in states[m].assignments
    ensures requests[n].operation.ClaimIssue? ==> requests[n].operation.issue != k
  {
    hide IsRun, Admits;
    NothingIsLost(states, requests, m, n, k);
    RunStep(states, requests, n + 1);
  }

  // ---------------------------------------------------------------- recorded evidence

  /** Every archiving request of a run left its event. */
  lemma {:induction false} JournalIsComplete(states: seq<State>, requests: seq<Request>, m: nat, n: nat, k: int)
    requires m < n <= |requests| < |states| && k in states[m].assignments
    requires Archives(requests[m].operation) && Target(states[m], requests[m].operation) == k
    ensures Event(m + 1, requests[m].operation, states[m].assignments[k].now) in Journal(states, requests, n, k)
  {
    if m < n - 1 {
      JournalIsComplete(states, requests, m, n - 1, k);
    }
  }

  predicate Records(r: Request, k: int) {
    r.operation.RecordEvidence? && r.operation.issue == k
  }

  /** Request m archives the fields of issue k. */
  predicate ArchivesAt(states: seq<State>, requests: seq<Request>, k: int, m: nat)
    requires m < |requests| <= |states|
  {
    Archives(requests[m].operation) && Target(states[m], requests[m].operation) == k
  }

  ghost predicate ArchivedBetween(states: seq<State>, requests: seq<Request>, k: int, i: nat, j: nat)
    requires j <= |requests| <= |states|
  {
    exists m: nat :: i < m < j && ArchivesAt(states, requests, k, m)
  }

  /** Some event between the recording i and the recording j keeps this evidence. */
  predicate Keeps(a: Assignment, i: nat, j: nat, evidence: Record) {
    exists e :: e in a.history && i + 1 < e.revision <= j + 1 && e.previous.evidence == evidence
  }

  lemma ArchivedWithin(states: seq<State>, requests: seq<Request>, k: int, i: nat, h: nat, j: nat)
    requires h <= j <= |requests| <= |states|
    ensures ArchivedBetween(states, requests, k, i, h) ==> ArchivedBetween(states, requests, k, i, j)
  {
  }

  /** Recorded evidence stays current for as long as nothing is archived or recorded on its issue. */
  lemma {:induction false} EvidenceStands(states: seq<State>, requests: seq<Request>, i: nat, j: nat, k: int)
    requires IsRun(states, requests) && i < j <= |requests| && Records(requests[i], k)
    requires !ArchivedBetween(states, requests, k, i, j)
    requires forall m :: i < m < j ==> !Records(requests[m], k)
    ensures k in states[j].assignments
    ensures states[j].assignments[k].now.evidence == requests[i].operation.evidence
  {
    hide IsRun, Commits;
    RunStep(states, requests, j);
    Shape(states[j - 1], requests[j - 1]);
    if i < j - 1 {
      ArchivedWithin(states, requests, k, i, j - 1, j);
      EvidenceStands(states, requests, i, j - 1, k);
      assert !ArchivesAt(states, requests, k, j - 1);
    }
  }

  /** Evidence that a later recording replaces is kept if and only if something was archived on its issue in between. */
  lemma ReplacedEvidence(states: seq<State>, requests: seq<Request>, i: nat, j: nat, n: nat, k: int)
    requires IsRun(states, requests) && i < j < n <= |requests|
    requires Records(requests[i], k) && Records(requests[j], k)
    requires forall m :: i < m < j ==> !Records(requests[m], k)
    ensures k in states[n].assignments
    ensures Keeps(states[n].assignments[k], i, j, requests[i].operation.evidence) <==>
              ArchivedBetween(states, requests, k, i, j)
  {
    hide IsRun, Commits, Keeps;
    RunStep(states, requests, i + 1);
    Shape(states[i], requests[i]);
    NothingIsLost(states, requests, i, n, k);
    HistoryIsJournal(states, requests, n, k);
    var evidence, a := requests[i].operation.evidence, states[n].assignments[k];
    if Keeps(a, i, j, evidence) {
      KeptWasArchived(states, requests, i, j, n, k, a, evidence);
    }
    if ArchivedBetween(states, requests, k, i, j) {
      var m := FirstArchiving(states, requests, k, i, j);
      EvidenceStands(states, requests, i, m, k);
      JournalIsComplete(states, requests, m, n, k);
      ArchivedIsKept(a, i, j, Event(m + 1, requests[m].operation, states[m].assignments[k].now));
    }
  }

  lemma KeptWasArchived(states: seq<State>, requests: seq<Request>, i: nat, j: nat, n: nat, k: int,
                        a: Assignment, evidence: Record)
    requires j < n <= |requests| < |states| && Records(requests[j], k)
    requires a.history == Journal(states, requests, n, k) && Keeps(a, i, j, evidence)
    ensures ArchivedBetween(states, requests, k, i, j)
  {
    JournalEntries(states, requests, n, k, a.history);
    var e :| e in a.history && i + 1 < e.revision <= j + 1 && e.previous.evidence == evidence;
    assert IsEntry(states, requests, n, k, e);
    assert ArchivesAt(states, requests, k, e.revision - 1);
  }

  lemma ArchivedIsKept(a: Assignment, i: nat, j: nat, e: Event)
    requires e in a.history && i + 1 < e.revision <= j + 1
    ensures Keeps(a, i, j, e.previous.evidence)
  {
  }

  lemma {:induction false} FirstArchiving(states: seq<State>, requests: seq<Request>, k: int, i: nat, j: nat)
    returns (m: nat)
    requires j <= |requests| <= |states| && ArchivedBetween(states, requests, k, i, j)
    ensures i < m < j && ArchivesAt(states, requests, k, m) && !ArchivedBetween(states, requests, k, i, m)
  {
    m :| i < m < j && ArchivesAt(states, requests, k, m);
    if ArchivedBetween(states, requests, k, i, m) {
      m := FirstArchiving(states, requests, k, i, m);
    }
  }

  /** `q` is what `op` made of `p`, on some host and whatever evidence was recorded since. */
  ghost predicate Follows(p: Snapshot, op: Operation, q: Snapshot) {
    exists resolved :: Lasting(Local(p, Request(op, resolved)), q)
  }

  function After(a: Assignment, i: nat): Snapshot
    requires i < |a.history|
  {
    if i + 1 < |a.history| then a.history[i + 1].previous else a.now
  }

  ghost predicate Chained(a: Assignment) {
    forall i :: 0 <= i < |a.history| ==> Follows(a.history[i].previous, a.history[i].operation, After(a, i))
  }

  /** Replaying an issue's history step by step leads from each archived record to the next and to the present. */
  lemma {:induction false} HistoryReplays(states: seq<State>, requests: seq<Request>, n: nat, k: int)
    requires IsRun(states, requests) && n <= |requests| && k in states[n].assignments
    ensures Chained(states[n].assignments[k])
  {
    hide IsRun, Commits, Chained;
    if n > 0 {
      RunStep(states, requests, n);
      var s, r, t := states[n - 1], requests[n - 1], states[n];
      Shape(s, r);
      if k in s.assignments {
        HistoryReplays(states, requests, n - 1, k);
        ChainExtends(s.assignments[k], t.assignments[k], n, r);
      } else {
        FreshIsChained(t.assignments[k]);
      }
    } else {
      StartsEmpty(states, requests);
    }
  }

  lemma FreshIsChained(a: Assignment)
    requires a.history == []
    ensures Chained(a)
  {
  }

  lemma ChainExtends(a: Assignment, b: Assignment, n: int, r: Request)
    requires Chained(a)
    requires b == a
             || (!Archives(r.operation) && b.history == a.history && Lasting(a.now, b.now))
             || (b.now == Local(a.now, r) && b.history == a.history + [Event(n, r.operation, a.now)])
    ensures Chained(b)
  {
    forall i | 0 <= i < |b.history|
      ensures Follows(b.history[i].previous, b.history[i].operation, After(b, i))
    {
      if i < |a.history| {
        var p, op := a.history[i].previous, a.history[i].operation;
        assert Follows(p, op, After(a, i));
        var resolved :| Lasting(Local(p, Request(op, resolved)), After(a, i));
        assert Lasting(Local(p, Request(op, resolved)), After(b, i));
      } else {
        assert r == Request(r.operation, r.resolved);
        assert Lasting(Local(a.now, Request(r.operation, r.resolved)), b.now);
      }
    }
  }

  /** Every current merge receipt is the operation of some event in its issue's history. */
  lemma {:induction false} ReceiptsAreJournaled(states: seq<State>, requests: seq<Request>, n: nat, k: int)
    requires IsRun(states, requests) && n <= |requests| && k in states[n].assignments
    ensures k in states[n].observations ==>
              exists e :: e in states[n].assignments[k].history
                       && e.operation == ObserveMerge(states[n].observations[k])
    ensures forall pr :: pr in states[n].assignments[k].now.supporting ==>
              exists e :: e in states[n].assignments[k].history
                       && e.operation == ObservePrerequisite(states[n].assignments[k].now.supporting[pr])
  {
    hide IsRun, Commits;
    if n > 0 {
      RunStep(states, requests, n);
      var s, r, t := states[n - 1], requests[n - 1], states[n];
      Shape(s, r);
      if k in s.assignments {
        ReceiptsAreJournaled(states, requests, n - 1, k);
        ReceiptsStep(s, r, t, k);
      } else {
        StatesAreValid(states, requests, n - 1);
        NoReceiptYet(s, r, k);
      }
    } else {
      StartsEmpty(states, requests);
    }
  }

  lemma NoReceiptYet(s: State, r: Request, k: int)
    requires ValidState(s) && Targeted(s, r) && k !in s.assignments && k in Committed(s, r).assignments
    ensures k !in Committed(s, r).observations && Committed(s, r).assignments[k].now.supporting == map[]
  {
    Shape(s, r);
  }

  lemma ReceiptsStep(s: State, r: Request, t: State, k: int)
    requires Targeted(s, r) && t == Committed(s, r) && k in s.assignments && k in t.assignments
    requires k in s.observations ==>
               exists e :: e in s.assignments[k].history && e.operation == ObserveMerge(s.observations[k])
    requires forall pr :: pr in s.assignments[k].now.supporting ==>
               exists e :: e in s.assignments[k].history
                        && e.operation == ObservePrerequisite(s.assignments[k].now.supporting[pr])
    ensures k in t.observations ==>
              exists e :: e in t.assignments[k].history && e.operation == ObserveMerge(t.observations[k])
    ensures forall pr :: pr in t.assignments[k].now.supporting ==>
              exists e :: e in t.assignments[k].history
                       && e.operation == ObservePrerequisite(t.assignments[k].now.supporting[pr])
  {
    Shape(s, r);
    assert forall e :: e in s.assignments[k].history ==> e in t.assignments[k].history;
    if k == Target(s, r.operation) && Archives(r.operation) {
      var h := t.assignments[k].history;
      assert h[|h| - 1] in h && h[|h| - 1].operation == r.operation;
    }
    forall pr | pr in t.assignments[k].now.supporting
      ensures exists e :: e in t.assignments[k].history
                       && e.operation == ObservePrerequisite(t.assignments[k].now.supporting[pr])
    {
      var m := t.assignments[k].now.supporting[pr];
      if !(pr in s.assignments[k].now.supporting && s.assignments[k].now.supporting[pr] == m) {
        assert r.operation == ObservePrerequisite(m);
      }
    }
  }
}
