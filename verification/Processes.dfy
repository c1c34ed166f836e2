/** One owned process group: an adversarial kernel, and the phase object that observes, signals and reaps it. */
module Processes {
  import opened Text

  datatype Signal = Term | Kill

  /** One line of the process listing, or a line that cannot be read. */
  datatype Row = Row(pid: int, pgid: int, stat: string) | Unreadable

  /** What happened to the group, in order. `own` says that the signalled number still was this leader's. */
  datatype Event =
    | Signalled(signal: Signal, own: bool, refused: bool, at: real)
    | Listed(rows: seq<Row>)
    | Unlisted
    | StillRunning
    | Disowned(lost: bool)
    | Reaped
    | Unreaped

  /** The immediate child. Its number may be reused for a stranger only once it is gone. */
  datatype Leader = Running | Zombie | Gone

  datatype Fault = OwnershipLost | SignalFailed | ReapFailed | ReapUnconfirmed | ListingTimeout | ListingFailed

  /** What becomes of an attempt to start a child: none starts, anything goes, or it exits at once and all is well. */
  datatype Fate = NoStart | Wild | Gentle(exit: nat)

  datatype Waited = NotYet | Exited(status: nat) | WaitError

  /** One look at the leader: when, and what it showed. */
  datatype Glance = Glance(at: real, seen: Waited)

  datatype Killed = Delivered | NoGroup | Refused

  datatype Collected = Collected | OtherPid | CollectError

  datatype Listing = Rows(rows: seq<Row>) | Late | Broken

  function Min(x: real, y: real): real {
    if x <= y then x else y
  }

  function Max(x: real, y: real): real {
    if x <= y then y else x
  }

  // ---------------------------------------------------------------- the process listing

  /** A member of the group that is not merely waiting to be reaped. */
  predicate Executable(row: Row, group: int) {
    row.Row? && row.pgid == group && !("Z" <= row.stat)
  }

  predicate Readable(row: Row) {
    row.Row? && row.pid >= 0 && row.pgid >= 0
  }

  predicate ReadableRows(rows: seq<Row>) {
    rows != [] && forall i :: 0 <= i < |rows| ==> Readable(rows[i])
  }

  predicate Quiescent(rows: seq<Row>, group: int) {
    ReadableRows(rows) && forall i :: 0 <= i < |rows| ==> !Executable(rows[i], group)
  }

  /** None is the ValueError of a listing that cannot be trusted, wherever its bad line stands. */
  method ExecutableMembers(rows: seq<Row>, group: int) returns (running: Option<bool>)
    ensures running.Some? <==> ReadableRows(rows)
    ensures running.Some? ==> (running.value <==> !Quiescent(rows, group))
    ensures running.Some? <==> rows != [] && forall i :: 0 <= i < |rows| ==>
              match rows[i] case Unreadable => false case Row(pid, pgid, _) => pid >= 0 && pgid >= 0
    ensures running == Some(true) ==>
              exists i :: 0 <= i < |rows| && rows[i].Row? && rows[i].pgid == group
                          && (rows[i].stat == "" || rows[i].stat[0] != 'Z')
    ensures running == Some(false) ==> forall i :: 0 <= i < |rows| && rows[i].Row? && rows[i].pgid == group ==>
              rows[i].stat != "" && rows[i].stat[0] == 'Z'
  {
    if rows == [] {
      return None;
    }
    var found := false;
    for i := 0 to |rows|
      invariant forall j :: 0 <= j < i ==> Readable(rows[j])
      invariant found <==> exists j :: 0 <= j < i && Executable(rows[j], group)
    {
      if !Readable(rows[i]) {
        return None;
      }
      if Executable(rows[i], group) {
        found := true;
      }
    }
    return Some(found);
  }

  // ---------------------------------------------------------------- the log of a group

  function Signals(log: seq<Event>): seq<Signal> {
    if log == [] then []
    else
      var last := log[|log| - 1];
      Signals(log[..|log| - 1]) + if last.Signalled? then [last.signal] else []
  }

  /** Every signal reached this leader's own group, and none followed the loss of ownership or the reap. */
  ghost predicate Orderly(log: seq<Event>) {
    && (forall i :: 0 <= i < |log| && log[i].Signalled? ==> log[i].own)
    && (forall i, j :: 0 <= i < j < |log| && (log[i].Disowned? || log[i].Reaped?) ==> !log[j].Signalled?)
  }

  predicate Owned(log: seq<Event>) {
    forall i :: 0 <= i < |log| ==> !log[i].Disowned? && !log[i].Reaped?
  }

  predicate WasReaped(log: seq<Event>) {
    Reaped in log
  }

  /** A failed signal, an untrustworthy or missing listing, a lost leader or a failed reap. */
  predicate IsTrouble(e: Event) {
    match e
    case Signalled(_, _, refused, _) => refused
    case Listed(rows) => !ReadableRows(rows)
    case Disowned(lost) => lost
    case Unlisted => true
    case Unreaped => true
    case StillRunning => false
    case Reaped => false
  }

  /** One look at the group, whatever it showed. */
  predicate IsLook(e: Event) {
    e.StillRunning? || e.Listed? || e.Unlisted? || e == Disowned(true)
  }

  predicate Untroubled(log: seq<Event>) {
    forall i :: 0 <= i < |log| ==> !IsTrouble(log[i])
  }

  /** A trustworthy listing that shows no executable member. */
  predicate IsQuiet(e: Event, group: int) {
    e.Listed? && Quiescent(e.rows, group)
  }

  predicate NeverQuiet(log: seq<Event>, group: int) {
    forall i :: 0 <= i < |log| ==> !IsQuiet(log[i], group)
  }

  /** SIGKILL was attempted only once the deadline had passed, or after some trouble. */
  predicate Patient(log: seq<Event>, deadline: real) {
    Untroubled(log) ==>
      forall i :: 0 <= i < |log| && log[i].Signalled? && log[i].signal.Kill? ==> log[i].at >= deadline
  }

  predicate NoKill(log: seq<Event>) {
    forall i :: 0 <= i < |log| && log[i].Signalled? ==> log[i].signal.Term?
  }

  /** Without trouble, a killed group that was never seen quiet is looked at once more, and given up only after its
      grace period. */
  predicate Enduring(log: seq<Event>, group: int, now: real, grace: real) {
    Untroubled(log) && NeverQuiet(log, group) ==>
      forall i :: 0 <= i < |log| && log[i].Signalled? && log[i].signal.Kill? ==>
        && now >= log[i].at + grace
        && (grace > 0.0 ==> i + 1 < |log| && IsLook(log[i + 1]))
  }

  /** Nothing was given up early: both signals, a lost leader or a quiet group. */
  predicate Thorough(log: seq<Event>, group: int) {
    Signals(log) == [Term, Kill] || Disowned(true) in log || !NeverQuiet(log, group)
  }

  /** What one more event does to each of these. */
  lemma Appended(log: seq<Event>, e: Event)
    ensures Orderly(log + [e]) <==> Orderly(log) && (e.Signalled? ==> e.own && Owned(log))
    ensures Owned(log + [e]) <==> Owned(log) && !e.Disowned? && !e.Reaped?
    ensures WasReaped(log + [e]) <==> WasReaped(log) || e.Reaped?
    ensures Untroubled(log + [e]) <==> Untroubled(log) && !IsTrouble(e)
  {
    hide IsTrouble;
    var longer := log + [e];
    assert longer[|log|] == e && forall i :: 0 <= i < |log| ==> longer[i] == log[i];
  }

  /** The log grew, and not by signals. */
  predicate Watched(before: seq<Event>, log: seq<Event>) {
    before <= log && forall i :: |before| <= i < |log| ==> !log[i].Signalled?
  }

  lemma {:induction false} WatchedKeeps(before: seq<Event>, log: seq<Event>, deadline: real)
    requires Watched(before, log)
    ensures Signals(log) == Signals(before)
    ensures Untroubled(log) ==> Untroubled(before)
    ensures Patient(before, deadline) ==> Patient(log, deadline)
    decreases |log|
  {
    if |log| == |before| {
      assert log == before;
    } else {
      var shorter := log[..|log| - 1];
      WatchedKeeps(before, shorter, deadline);
      assert log == shorter + [log[|log| - 1]];
      Appended(shorter, log[|log| - 1]);
    }
  }

  /** After a first SIGKILL attempt the log endures if the group was then looked at, and long enough. */
  lemma KillEndures(before: seq<Event>, log: seq<Event>, e: Event, group: int, now: real, grace: real)
    requires NoKill(before) && e.Signalled? && Watched(before + [e], log)
    requires e.signal.Kill? && Untroubled(log) && NeverQuiet(log, group) ==>
               now >= e.at + grace && (grace > 0.0 ==> |log| > |before| + 1 && IsLook(log[|before| + 1]))
    ensures Enduring(log, group, now, grace)
    ensures e.signal.Term? ==> NoKill(log)
  {
    hide Untroubled, NeverQuiet, IsLook;
    var longer := before + [e];
    assert longer[|before|] == e && forall i :: 0 <= i < |before| ==> log[i] == longer[i] == before[i];
    assert log[|before|] == e;
  }

  lemma WatchedEndures(before: seq<Event>, log: seq<Event>, group: int, was: real, now: real, grace: real)
    requires Watched(before, log) && was <= now
    ensures NoKill(before) ==> NoKill(log) && Enduring(log, group, now, grace)
    ensures Enduring(before, group, was, grace) ==> Enduring(log, group, now, grace)
  {
    hide IsTrouble, IsQuiet, IsLook;
    assert forall i :: 0 <= i < |before| ==> log[i] == before[i];
  }

  lemma LossAndQuietShow(log: seq<Event>, group: int)
    ensures Disowned(true) in log ==> !Untroubled(log)
    ensures log != [] && IsQuiet(log[|log| - 1], group) ==> !NeverQuiet(log, group)
  {
  }

  /** At most one SIGTERM attempt, then at most one SIGKILL attempt, never the second without the first. */
  predicate Escalates(log: seq<Event>) {
    Signals(log) in [[], [Term], [Term, Kill]]
  }

  lemma SignalsAfter(log: seq<Event>, e: Event)
    ensures Signals(log + [e]) == Signals(log) + if e.Signalled? then [e.signal] else []
  {
    assert (log + [e])[..|log|] == log;
  }

  lemma {:induction false} SignalsAt(log: seq<Event>, i: nat)
    requires i <= |log|
    ensures Signals(log[..i]) <= Signals(log)
  {
    if i < |log| {
      SignalsAt(log[..|log| - 1], i);
      assert log[..|log| - 1][..i] == log[..i];
    } else {
      assert log[..i] == log;
    }
  }

  /** In an escalating log, of any two signals the first is SIGTERM and the second SIGKILL. */
  lemma SignalsInOrder(log: seq<Event>, i: nat, j: nat)
    requires Escalates(log) && i < j < |log| && log[i].Signalled? && log[j].Signalled?
    ensures log[i].signal.Term? && log[j].signal.Kill?
  {
    SignalPlace(log, i);
    SignalPlace(log, j);
    SignalsAt(log[..j], i + 1);
    assert log[..j][..i + 1] == log[..i + 1];
    assert |Signals(log[..i])| < |Signals(log[..i + 1])| <= |Signals(log[..j])|;
  }

  /** A logged signal stands in the list of signals after those logged before it. */
  lemma SignalPlace(log: seq<Event>, i: nat)
    requires i < |log| && log[i].Signalled?
    ensures Signals(log[..i + 1]) == Signals(log[..i]) + [log[i].signal]
    ensures |Signals(log[..i])| < |Signals(log)| && Signals(log)[|Signals(log[..i])|] == log[i].signal
  {
    assert log[..i + 1] == log[..i] + [log[i]];
    SignalsAfter(log[..i], log[i]);
    SignalsAt(log, i + 1);
  }

  /** No SIGKILL attempt without an earlier SIGTERM attempt. */
  lemma KillFollowsTerm(log: seq<Event>, j: nat)
    requires Escalates(log) && j < |log| && log[j].Signalled? && log[j].signal.Kill?
    ensures exists i :: 0 <= i < j && log[i].Signalled? && log[i].signal.Term?
  {
    assert log[..j + 1] == log[..j] + [log[j]];
    SignalsAfter(log[..j], log[j]);
    SignalsAt(log, j + 1);
    SignalsAt(log, j);
    assert Signals(log)[|Signals(log[..j])|] == Kill;
    assert Signals(log[..j])[0] == Term;
    assert Term in Signals(log[..j]);
    SignalWasLogged(log[..j], Term);
  }

  lemma {:induction false} SignalWasLogged(log: seq<Event>, signal: Signal)
    requires signal in Signals(log)
    ensures exists i :: 0 <= i < |log| && log[i].Signalled? && log[i].signal == signal
  {
    var last := |log| - 1;
    if signal in Signals(log[..last]) {
      SignalWasLogged(log[..last], signal);
      var i :| 0 <= i < last && log[..last][i].Signalled? && log[..last][i].signal == signal;
      assert log[i].Signalled?;
    }
  }

  /** A confirmed stop ends with a listing that shows no executable member, then the reap, and nothing between. */
  predicate ConfirmedStop(log: seq<Event>, group: int) {
    && |log| >= 3
    && IsQuiet(log[|log| - 3], group)
    && log[|log| - 2] == Disowned(false) && log[|log| - 1] == Reaped
  }

  /** What the operator is told is a confirmed shutdown: such a stop, and no trouble before it. */
  predicate Settled(log: seq<Event>, group: int) {
    ConfirmedStop(log, group) && Untroubled(log)
  }

  // ---------------------------------------------------------------- the wait

  /** From look `from` on, each look follows the one before it within this many seconds. */
  predicate Steady(watch: seq<Glance>, from: nat, gap: real) {
    forall i, j :: from <= i < |watch| && j == i + 1 && j < |watch| ==> watch[j].at <= watch[i].at + gap
  }

  lemma SteadyNext(watch: seq<Glance>, longer: seq<Glance>, gap: real)
    requires Steady(watch, 0, gap) && watch <= longer && |longer| <= |watch| + 1
    requires |longer| > |watch| > 0 ==> longer[|watch|].at <= watch[|watch| - 1].at + gap
    ensures Steady(longer, 0, gap)
  {
    assert forall i :: 0 <= i < |watch| ==> longer[i] == watch[i];
  }

  /** A look after which the wait goes on. */
  predicate Open(g: Glance, deadline: real) {
    g.seen.NotYet? && g.at < deadline
  }

  /** The look that ends the wait: an exit, a lost leader, or a leader still running at the deadline. */
  function Outcome(watch: seq<Glance>, deadline: real): Option<Waited> {
    if watch == [] then None
    else if Open(watch[0], deadline) then Outcome(watch[1..], deadline)
    else Some(watch[0].seen)
  }

  predicate EndsAt(watch: seq<Glance>, deadline: real, n: nat) {
    && n < |watch| && !Open(watch[n], deadline)
    && forall i :: 0 <= i < n ==> Open(watch[i], deadline)
  }

  /** The wait is ended by the first look that is not open, and by nothing later. */
  lemma {:induction false} OutcomeIsFirst(watch: seq<Glance>, deadline: real, n: nat)
    ensures Outcome(watch, deadline) == None <==> forall i :: 0 <= i < |watch| ==> Open(watch[i], deadline)
    ensures EndsAt(watch, deadline, n) ==> Outcome(watch, deadline) == Some(watch[n].seen)
  {
    if watch != [] {
      OutcomeIsFirst(watch[1..], deadline, if n == 0 then 0 else n - 1);
      assert forall i :: 1 <= i < |watch| ==> watch[i] == watch[1..][i - 1];
      if n > 0 && EndsAt(watch, deadline, n) {
        assert EndsAt(watch[1..], deadline, n - 1);
      }
    }
  }

  /** Later looks do not change how the wait ended. */
  lemma {:induction false} OutcomeStays(watch: seq<Glance>, longer: seq<Glance>, deadline: real)
    requires watch <= longer
    ensures Outcome(watch, deadline).Some? ==> Outcome(longer, deadline) == Outcome(watch, deadline)
    ensures Outcome(watch, deadline) == None && |longer| == |watch| + 1 ==>
              Outcome(longer, deadline) == if Open(longer[|watch|], deadline) then None else Some(longer[|watch|].seen)
  {
    if watch != [] {
      OutcomeStays(watch[1..], longer[1..], deadline);
    }
  }

  // ---------------------------------------------------------------- the kernel

  /** The operating system, free in all it does not promise. `exact` adds that sleeping takes exactly its time. */
  class Kernel {
    const pid: nat
    const exact: bool
    const gentle: bool
    const born: real
    /** The status that the leader exits with, if it ever exits. */
    const exit: nat
    var leader: Leader
    var now: real
    ghost var log: seq<Event>
    ghost var watch: seq<Glance>

    /** A freshly started child, which may already have exited. */
    constructor (exact: bool, now: real, fate: Fate)
      ensures this.exact == exact && this.now == now == born && log == [] && watch == [] && !leader.Gone?
      ensures gentle <==> fate.Gentle?
      ensures gentle ==> leader.Zombie? && exit == fate.exit
    {
      this.exact, this.now, this.born, this.log, this.watch := exact, now, now, [], [];
      var exited: bool, status: nat := *, *;
      gentle := fate.Gentle?;
      exit := if fate.Gentle? then fate.exit else status;
      leader := if exited || fate.Gentle? then Zombie else Running;
    }

    /** A running leader may exit at any time, and nobody but its parent reaps it. */
    twostate predicate Ran()
      reads this
    {
      old(leader) == leader || (old(leader).Running? && leader.Zombie?)
    }

    /** `waitid` with WNOWAIT: an exited leader stays unreaped. It may fail for reasons of its own. */
    method WaitId() returns (r: Waited)
      modifies this`leader, this`watch
      ensures Ran()
      ensures r.Exited? ==> leader.Zombie? && r.status == exit
      ensures r.NotYet? ==> leader.Running?
      ensures leader.Gone? ==> r.WaitError?
      ensures gentle && leader.Zombie? ==> r.Exited?
      ensures watch == old(watch) + [Glance(now, r)]
    {
      var exits: bool, fails: bool := *, *;
      if leader.Running? && exits {
        leader := Zombie;
      }
      r := if (fails && !gentle) || leader.Gone? then WaitError else if leader.Running? then NotYet else Exited(exit);
      watch := watch + [Glance(now, r)];
    }

    /** `killpg` on the leader's number, whoever has it by now. */
    method KillGroup(signal: Signal) returns (r: Killed)
      modifies this`log
      ensures log == old(log) + [Signalled(signal, !leader.Gone?, r.Refused?, now)]
    {
      r := *;
      log := log + [Signalled(signal, !leader.Gone?, r.Refused?, now)];
    }

    method WaitPid() returns (r: Collected)
      modifies this`leader, this`log
      ensures r.Collected? ==> old(leader).Zombie? && leader.Gone? && log == old(log) + [Reaped]
      ensures !r.Collected? ==> leader == old(leader) && log == old(log) + [Unreaped]
      ensures gentle && old(leader).Zombie? ==> r.Collected?
    {
      r := *;
      if gentle {
        r := Collected;
      }
      if r.Collected? && !leader.Zombie? {
        r := CollectError;
      }
      if r.Collected? {
        leader := Gone;
      }
      log := log + [if r.Collected? then Reaped else Unreaped];
    }

    /** List all processes, with exact timing within a second and by the deadline, or fail. */
    method ListProcesses(deadline: real) returns (r: Listing)
      modifies this`leader, this`now, this`log
      ensures Ran() && old(now) <= now
      ensures exact ==> now <= Max(old(now), Min(deadline, old(now) + 1.0))
      ensures log == old(log) + [if r.Rows? then Listed(r.rows) else Unlisted]
      ensures old(now) >= deadline ==> r.Late?
      ensures gentle && old(now) < deadline ==> r.Rows? && Quiescent(r.rows, pid)
    {
      r := *;
      if now >= deadline {
        r := Late;
      } else {
        if gentle {
          r := Rows([Row(pid, pid, "Z")]);
        }
        var exits: bool, later: real := *, *;
        if leader.Running? && exits {
          leader := Zombie;
        }
        if now <= later && (exact ==> later <= Min(deadline, now + 1.0)) {
          now := later;
        }
      }
      log := log + [if r.Rows? then Listed(r.rows) else Unlisted];
    }

    method Sleep(duration: real)
      requires duration >= 0.0
      modifies this`now
      ensures now >= old(now) + duration
      ensures exact ==> now == old(now) + duration
    {
      var extra: real := *;
      now := now + duration + if !exact && extra >= 0.0 then extra else 0.0;
    }
  }

  // ---------------------------------------------------------------- the phase

  /** Keep the leader waitable until the last signal its group can get. */
  class Phase {
    const child: Kernel
    var owned: bool
    var status: Option<nat>
    var reaped: bool
    var errors: seq<Fault>

    ghost predicate Valid()
      reads this, child
    {
      && (reaped <==> child.leader.Gone?)
      && (reaped <==> WasReaped(child.log))
      && (owned <==> Owned(child.log))
      && (owned ==> !reaped)
      && Orderly(child.log)
      && (errors == [] <==> Untroubled(child.log))
      && (status.Some? ==> status.value == child.exit && !child.leader.Running?)
      && (child.gentle ==> !child.leader.Running?)
    }

    constructor (child: Kernel)
      requires child.log == [] && !child.leader.Gone? && (child.gentle ==> child.leader.Zombie?)
      ensures Valid() && this.child == child && owned && !reaped && status == None && errors == []
    {
      this.child := child;
      owned, status, reaped, errors := true, None, false, [];
    }

    /** Whether the owned leader has exited; failing to see it gives ownership up. */
    method Observe() returns (exited: bool)
      requires Valid()
      modifies this`owned, this`status, this`errors, child`leader, child`log, child`watch
      ensures Valid() && child.Ran()
      ensures exited ==> owned && child.leader.Zombie? && status == Some(child.exit)
      ensures old(owned) && child.gentle ==> exited
      ensures !exited ==> status == old(status) && (owned ==> child.leader.Running?)
      ensures owned ==> old(owned) && errors == old(errors) && child.log == old(child.log)
      ensures old(owned) && !owned ==>
                child.log == old(child.log) + [Disowned(true)] && errors == old(errors) + [OwnershipLost]
      ensures !old(owned) ==> errors == old(errors) && child.log == old(child.log) && child.watch == old(child.watch)
      ensures old(owned) ==>
                child.watch == old(child.watch)
                  + [Glance(child.now, if exited then Exited(child.exit) else if owned then NotYet else WaitError)]
    {
      hide Orderly, Owned, WasReaped, Untroubled;
      if !owned {
        return false;
      }
      var observed := child.WaitId();
      match observed
      case WaitError =>
        Appended(child.log, Disowned(true));
        owned, errors := false, errors + [OwnershipLost];
        child.log := child.log + [Disowned(true)];
        return false;
      case Exited(code) =>
        status := Some(code);
        return true;
      case NotYet =>
        return false;
    }

    /** One attempt to signal the group, made only while the leader is still owned. */
    method SignalGroup(signal: Signal) returns (ok: bool)
      requires Valid()
      modifies this`owned, this`status, this`errors, child`leader, child`log, child`watch
      ensures Valid() && child.Ran()
      ensures owned ==> old(owned) && child.log == old(child.log) + [Signalled(signal, true, !ok, child.now)]
      ensures !owned ==> !ok && child.log == old(child.log) + if old(owned) then [Disowned(true)] else []
      ensures old(status).Some? || !old(owned) ==> status == old(status)
      ensures old(child.watch) <= child.watch
    {
      hide Orderly, Owned, WasReaped, Untroubled;
      var exited := Observe();
      if !owned {
        return false;
      }
      var r := child.KillGroup(signal);
      Appended(old(child.log), Signalled(signal, true, r.Refused?, child.now));
      if r.Refused? {
        errors := errors + [SignalFailed];
        return false;
      }
      return true;
    }

    /** Give ownership up for good, and collect the leader if it has exited. */
    method Reap() returns (done: bool)
      requires Valid()
      modifies this, child`leader, child`log, child`watch
      ensures Valid() && !owned && Watched(old(child.log), child.log)
      ensures done ==> old(owned) && child.log == old(child.log) + [Disowned(false), Reaped]
      ensures done ==> reaped && status.Some? && errors == old(errors)
      ensures !done ==> reaped == old(reaped)
      ensures old(owned) && child.gentle ==> done
      ensures old(status).Some? || !old(owned) ==> status == old(status)
      ensures !old(owned) ==> child.log == old(child.log)
      ensures old(child.watch) <= child.watch
    {
      hide Orderly, Owned, WasReaped, Untroubled;
      var exited := Observe();
      if owned {
        Appended(child.log, Disowned(false));
        child.log := child.log + [Disowned(false)];
      }
      owned := false;
      if !exited {
        return false;
      }
      ghost var given := child.log;
      var collected := child.WaitPid();
      Appended(given, Reaped);
      Appended(given, Unreaped);
      match collected
      case CollectError =>
        errors := errors + [ReapFailed];
        return false;
      case OtherPid =>
        errors := errors + [ReapUnconfirmed];
        return false;
      case Collected =>
        reaped := true;
        assert child.log == old(child.log) + [Disowned(false), Reaped];
        return true;
    }
  }
}
