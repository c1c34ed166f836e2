/** The account qualification run: bounded phases, one finalizer, and an exit status that keeps the first failure. */
module AccountRunner {
  import opened Text
  import opened Processes

  /** The work budgets of the six phases, in seconds: prepare, preflight, compose version, build, startup, browser. */
  const BUDGETS: seq<real> := [30.0, 30.0, 30.0, 600.0, 180.0, 300.0]

  /** What a passed phase takes: its leader was seen to exit with 0 in time, and its group settled. */
  ghost predicate Succeeded(child: Kernel?, seconds: real)
    reads child
  {
    && child != null && Outcome(child.watch, child.born + seconds) == Some(Exited(0))
    && Settled(child.log, child.pid)
  }

  /** Nothing was started, or its group settled. */
  ghost predicate IsSettled(child: Kernel?)
    reads child
  {
    child != null ==> Settled(child.log, child.pid)
  }

  /** What an uninterrupted phase reports about its child, null if it could not be started. */
  ghost function Status(child: Kernel?, seconds: real, cleanup: bool): (status: nat)
    reads child
    ensures status == 0 <==> Succeeded(child, seconds)
  {
    if child == null then 1
    else
      match Outcome(child.watch, child.born + seconds)
      case Some(NotYet) => if cleanup then 1 else 124
      case Some(Exited(status)) =>
        if status != 0 then status else if Settled(child.log, child.pid) then 0 else 1
      case _ => 1
  }

  /** The leader was seen running once its time was over. */
  ghost predicate TimedOut(child: Kernel?, seconds: real)
    reads child
  {
    child != null && Outcome(child.watch, child.born + seconds) == Some(NotYet)
  }

  /** The status as the runner computes it from how the wait ended, what it saw and whether the stop was confirmed. */
  lemma StatusIs(child: Kernel, seconds: real, cleanup: bool, timedOut: bool, stopped: bool, status: Option<nat>)
    requires stopped <==> Settled(child.log, child.pid)
    requires var seen := Outcome(child.watch, child.born + seconds);
             && seen.Some? && (timedOut <==> seen == Some(NotYet))
             && (seen == Some(WaitError) ==> status == None)
             && (seen.value.Exited? ==> status == Some(seen.value.status))
    ensures Status(child, seconds, cleanup) ==
              if timedOut then (if cleanup then 1 else 124)
              else if status.Some? && status.value != 0 then status.value
              else if stopped && status == Some(0) then 0 else 1
    ensures TimedOut(child, seconds) <==> timedOut
  {
  }

  /** The result is the interruption that was noticed, else the child's own status, whose wait then came to an end. */
  ghost predicate Reports(result: nat, child: Kernel?, seconds: real, cleanup: bool, noticed: nat)
    reads child
  {
    if noticed != 0 then child != null && !cleanup && result == noticed
    else
      && result == Status(child, seconds, cleanup)
      && (child != null ==> Outcome(child.watch, child.born + seconds).Some?)
  }

  /** What the runner reports, given the cancellation `heard` when it decided. */
  lemma ReportIs(child: Kernel, seconds: real, cleanup: bool, interrupted: bool, timedOut: bool, stopped: bool,
                 status: Option<nat>, heard: nat, result: nat)
    requires if interrupted then heard != 0 && !timedOut && !cleanup
             else
               var seen := Outcome(child.watch, child.born + seconds);
               && seen.Some? && (timedOut <==> seen == Some(NotYet))
               && (seen == Some(WaitError) ==> status == None)
               && (seen.value.Exited? ==> status == Some(seen.value.status))
    requires (stopped <==> Settled(child.log, child.pid)) && (cleanup ==> heard == 0)
    requires result == if timedOut then (if cleanup then 1 else 124)
                       else if heard != 0 then heard
                       else if status.Some? && status.value != 0 then status.value
                       else if stopped && status == Some(0) then 0 else 1
    ensures Reports(result, child, seconds, cleanup, if timedOut then 0 else heard)
    ensures timedOut ==> TimedOut(child, seconds)
  {
    hide Outcome, Settled, Status, TimedOut;
    if !interrupted {
      StatusIs(child, seconds, cleanup, timedOut, stopped, status);
    }
  }

  lemma FailedNow(work: seq<Kernel?>, child: Kernel?, result: nat, noticed: nat)
    requires Passed(work) && |work| < |BUDGETS| && result != 0
    ensures result == noticed ==> Failed(work, result, noticed)
    ensures Reports(result, child, BUDGETS[|work|], false, noticed) ==> Failed(work + [child], result, noticed)
  {
    hide Reports, Succeeded;
    assert (work + [child])[..|work|] == work;
  }

  lemma NothingStarted(seconds: real, cleanup: bool)
    ensures Reports(1, null, seconds, cleanup, 0) && Status(null, seconds, false) == 1 && !TimedOut(null, seconds)
  {
  }

  /** The first phases of the work, as many as there are children, were passed. */
  ghost predicate Passed(work: seq<Kernel?>)
    reads work
  {
    |work| <= |BUDGETS| && forall i :: 0 <= i < |work| ==> Succeeded(work[i], BUDGETS[i])
  }

  ghost predicate Complete(work: seq<Kernel?>)
    reads work
  {
    |work| == |BUDGETS| && Passed(work)
  }

  /** The work failed: an interruption kept its next phase from starting, or its last phase failed and no other. */
  ghost predicate Failed(work: seq<Kernel?>, result: nat, noticed: nat)
    reads work
  {
    && result != 0
    && (|| (|work| < |BUDGETS| && Passed(work) && result == noticed)
        || (0 < |work| <= |BUDGETS| && Passed(work[..|work| - 1])
            && Reports(result, work[|work| - 1], BUDGETS[|work| - 1], false, noticed)))
  }

  ghost predicate AllSettled(children: seq<Kernel?>)
    reads children
  {
    forall i :: 0 <= i < |children| ==> IsSettled(children[i])
  }

  lemma PassedOneMore(work: seq<Kernel?>, child: Kernel?)
    requires Passed(work) && |work| < |BUDGETS| && Succeeded(child, BUDGETS[|work|])
    ensures Passed(work + [child])
  {
  }

  lemma AllSettledOneMore(children: seq<Kernel?>, child: Kernel?)
    ensures AllSettled(children + [child]) <==> AllSettled(children) && IsSettled(child)
  {
    var more := children + [child];
    assert more[|children|] == child && forall i :: 0 <= i < |children| ==> more[i] == children[i];
  }

  lemma SuccessIsSettled(child: Kernel?, seconds: real)
    ensures Succeeded(child, seconds) ==> IsSettled(child)
  {
  }

  lemma ReportsSuccess(child: Kernel?, seconds: real, cleanup: bool, noticed: nat)
    ensures Reports(0, child, seconds, cleanup, noticed) ==>
              Succeeded(child, seconds) && IsSettled(child) && noticed == 0
    ensures cleanup && Succeeded(child, seconds) ==>
              forall result :: Reports(result, child, seconds, cleanup, noticed) ==> result == 0
  {
  }

  /** Complete work left every group settled, and a failure of its last phase is an interruption. */
  lemma CompleteIsSettled(work: seq<Kernel?>, result: nat, noticed: nat)
    requires Complete(work)
    ensures AllSettled(work)
    ensures Failed(work, result, noticed) ==> noticed != 0
  {
    forall i | 0 <= i < |work|
      ensures IsSettled(work[i])
    {
      SuccessIsSettled(work[i], BUDGETS[i]);
    }
  }

  /** Without an interruption the reported failure is that of the last phase started, and all before it passed. */
  lemma FailureIsFirst(work: seq<Kernel?>, result: nat)
    requires Failed(work, result, 0)
    ensures work != [] && |work| <= |BUDGETS| && Passed(work[..|work| - 1])
    ensures var last, seconds := work[|work| - 1], BUDGETS[|work| - 1];
            !Succeeded(last, seconds) && result == Status(last, seconds, false)
  {
    ReportsSuccess(work[|work| - 1], BUDGETS[|work| - 1], false, 0);
  }

  /** What the status of the whole run comes to, given how the work and the cleanup went. */
  lemma Verdict(work: seq<Kernel?>, cleaner: Kernel?, seconds: real, status: nat, result: nat, noticed: nat,
                wrote: bool, fine: bool, before: bool)
    requires if !wrote then work == [] && status == 1 && noticed == 0
             else if status == 0 then Complete(work) && noticed == 0
             else Failed(work, status, noticed)
    requires result == if status != 0 then status
                       else if Succeeded(cleaner, seconds) && fine && wrote
                               && before && AllSettled(work) && IsSettled(cleaner) then 0 else 1
    ensures result == 0 <==>
              wrote && fine && noticed == 0 && before && Complete(work) && Succeeded(cleaner, seconds)
    ensures wrote && !(Complete(work) && noticed == 0) ==> Failed(work, result, noticed)
    ensures result in {0, 1} || Failed(work, result, noticed)
  {
    hide Succeeded, IsSettled, Failed, Passed, AllSettled;
    SuccessIsSettled(cleaner, seconds);
    if Complete(work) {
      CompleteIsSettled(work, status, noticed);
    }
  }

  /** Keep a failure, and turn a success that does not hold up into one. */
  function Kept(status: nat, fine: bool): nat {
    if status == 0 && !fine then 1 else status
  }

  /** A group that was left alone for good, in order and not before its time. */
  ghost predicate Dismissed(child: Kernel)
    reads child
  {
    Orderly(child.log) && Escalates(child.log) && Thorough(child.log, child.pid) && !Owned(child.log)
  }

  /** How many 0.02 second naps fit before the deadline, one more for the rest. */
  function Naps(remaining: real): nat {
    if remaining <= 0.0 then 0 else (remaining / 0.02).Floor + 1
  }

  lemma NapShortens(remaining: real, left: real)
    requires remaining > 0.0 && (left <= remaining - 0.02 || left <= 0.0)
    ensures Naps(left) < Naps(remaining)
  {
    if left > 0.0 {
      assert left / 0.02 <= remaining / 0.02 - 1.0;
    }
  }

  lemma QuietIsReadable(rows: seq<Row>, group: int)
    ensures Quiescent(rows, group) ==> ReadableRows(rows)
  {
  }

  lemma AppendedTo(log: seq<Event>, e: Event, group: int, deadline: real)
    ensures Signals(log + [e]) == Signals(log) + if e.Signalled? then [e.signal] else []
    ensures NeverQuiet(log + [e], group) <==> NeverQuiet(log, group) && !IsQuiet(e, group)
    ensures Untroubled(log + [e]) <==> Untroubled(log) && !IsTrouble(e)
    ensures Patient(log, deadline) && (e.Signalled? && e.signal.Kill? && Untroubled(log) ==> e.at >= deadline) ==>
              Patient(log + [e], deadline)
  {
    hide IsQuiet, IsTrouble, Signals;
    SignalsAfter(log, e);
    Appended(log, e);
    var longer := log + [e];
    assert longer[|log|] == e && forall i :: 0 <= i < |log| ==> longer[i] == log[i];
  }

  lemma BeginsPatient(log: seq<Event>, group: int, deadline: real)
    requires log in [[], [Disowned(true)]]
    ensures Signals(log) == [] && Patient(log, deadline) && NeverQuiet(log, group) && NoKill(log)
    ensures log == [] ==> Untroubled(log)
  {
  }

  /** A log ends like a confirmed stop exactly if the group was last seen quiet and then reaped. */
  lemma Concluded(watched: seq<Event>, log: seq<Event>, group: int, quiet: bool, done: bool)
    requires if done then log == watched + [Disowned(false), Reaped] else !WasReaped(log)
    requires if quiet then |watched| > 0 && IsQuiet(watched[|watched| - 1], group) else NeverQuiet(watched, group)
    ensures quiet && done <==> ConfirmedStop(log, group)
  {
    hide IsQuiet;
    if done && |watched| > 0 {
      assert log[|log| - 3] == watched[|watched| - 1];
    }
  }

  /** What was thorough when the group was given up stays so. */
  lemma StaysThorough(watched: seq<Event>, log: seq<Event>, group: int, quiet: bool)
    requires Watched(watched, log)
    requires quiet ==> |watched| > 0 && IsQuiet(watched[|watched| - 1], group)
    requires quiet || Disowned(true) in watched || Signals(watched) == [Term, Kill]
    ensures Thorough(log, group)
  {
    hide IsQuiet, Signals;
    WatchedKeeps(watched, log, 0.0);
    if quiet {
      assert log[|watched| - 1] == watched[|watched| - 1];
    } else if Disowned(true) in watched {
      assert forall i :: 0 <= i < |watched| ==> log[i] == watched[i];
    }
  }

  /** Where a signal may be delivered in the n-th attempt at a phase: between any two reads of the cancellation. */
  datatype Place = Entering | Looking(n: nat) | Waiting(n: nat) | Deciding | Leaving

  /** Where a signal may be delivered in the run; the last point is just before the finalizer ignores signals. */
  datatype Point = At(attempt: nat, place: Place) | HandingOver

  /** No signal arrives where the first n phases are sure to read the cancellation afterwards. */
  ghost predicate Undisturbed(signals: Point -> nat, n: nat) {
    && (forall i :: 0 <= i < n ==> signals(At(i, Entering)) == 0 && signals(At(i, Deciding)) == 0)
    && (forall i :: 0 <= i < n - 1 ==> signals(At(i, Leaving)) == 0)
  }

  lemma SuccessIsInTime(child: Kernel?, seconds: real)
    ensures Succeeded(child, seconds) ==> child != null && !TimedOut(child, seconds)
  {
  }

  class Runner {
    const termSeconds: real
    const killSeconds: real
    const cleanupSeconds: real
    const exact: bool
    /** What becomes of the n-th attempt to start a child. */
    const fates: nat -> Fate
    /** The number of the signal that arrives at each point, 0 for none. */
    const signals: Point -> nat
    var accepting: bool
    var cancelled: nat
    var processCleanupConfirmed: bool
    var qualificationComplete: bool
    var volumeBaselineComplete: bool
    var unresolved: nat
    /** The children of all attempts so far, null where starting failed. */
    var children: seq<Kernel?>

    constructor (term: real, kill: real, cleanup: real, exact: bool, fates: nat -> Fate, signals: Point -> nat)
      ensures processCleanupConfirmed && !qualificationComplete && !volumeBaselineComplete
      ensures accepting && cancelled == 0 && unresolved == 0 && children == []
      ensures termSeconds == term && killSeconds == kill && cleanupSeconds == cleanup
      ensures this.exact == exact && this.fates == fates && this.signals == signals
    {
      termSeconds, killSeconds, cleanupSeconds, this.exact := term, kill, cleanup, exact;
      this.fates, this.signals := fates, signals;
      accepting, cancelled, processCleanupConfirmed, qualificationComplete := true, 0, true, false;
      volumeBaselineComplete, unresolved, children := false, 0, [];
    }

    /** The signal of this point, if it is handled and the first, fixes the status. */
    method Interrupts(point: Point)
      modifies this`cancelled
      ensures cancelled == if accepting && old(cancelled) == 0 && signals(point) != 0 then 128 + signals(point)
                           else old(cancelled)
    {
      if accepting && cancelled == 0 && signals(point) != 0 {
        cancelled := 128 + signals(point);
      }
    }

    ghost predicate Delivers(point: Point, status: nat) {
      signals(point) != 0 && status == 128 + signals(point)
    }

    /** A child that exits at once is not waited for. */
    ghost predicate IsPassed(place: Place, attempt: nat) {
      place.Looking? || place.Waiting? ==> !fates(attempt).Gentle?
    }

    /** This status was delivered in the given attempt, before its end. */
    ghost predicate DeliveredEarly(status: nat, attempt: nat) {
      exists place: Place :: !place.Leaving? && IsPassed(place, attempt) && Delivers(At(attempt, place), status)
    }

    /** This status was delivered in the given attempt. */
    ghost predicate Delivered(status: nat, attempt: nat) {
      DeliveredEarly(status, attempt) || Delivers(At(attempt, Leaving), status)
    }

    /** This status was delivered in the given attempt between reading the cancellation and reading the clock. */
    ghost predicate DeliveredWaiting(status: nat, attempt: nat) {
      exists n :: Delivers(At(attempt, Waiting(n)), status)
    }

    lemma DeliveredHere(status: nat, attempt: nat, place: Place)
      requires Delivers(At(attempt, place), status) && IsPassed(place, attempt)
      ensures Delivered(status, attempt) && (!place.Leaving? ==> DeliveredEarly(status, attempt))
      ensures place.Waiting? ==> DeliveredWaiting(status, attempt)
      ensures place.Deciding? ==> DeliveredLate(status, attempt, true)
      ensures place.Leaving? ==> DeliveredLate(status, attempt, true) && DeliveredLate(status, attempt, false)
    {
      assert IsLate(place, false) <==> place.Leaving?;
      assert IsLate(place, true) <==> place.Waiting? || place.Deciding? || place.Leaving?;
    }

    lemma WaitingIsLate(status: nat, attempt: nat)
      requires DeliveredWaiting(status, attempt)
      ensures DeliveredLate(status, attempt, true)
    {
      var n :| Delivers(At(attempt, Waiting(n)), status);
      assert IsLate(Waiting(n), true);
    }

    /** Places after the last read of the cancellation; running out of time ends with an earlier read. */
    predicate IsLate(place: Place, timedOut: bool) {
      place.Leaving? || (timedOut && (place.Waiting? || place.Deciding?))
    }

    /** This status was delivered in the given attempt when nothing of it read the cancellation any more. */
    ghost predicate DeliveredLate(status: nat, attempt: nat, timedOut: bool) {
      exists place :: IsLate(place, timedOut) && Delivers(At(attempt, place), status)
    }

    /** `noticed` is the cancellation as the attempt last read it. */
    ghost predicate Noticed(noticed: nat, attempt: nat, timedOut: bool)
      reads this`cancelled
    {
      cancelled == noticed || (noticed == 0 && DeliveredLate(cancelled, attempt, timedOut))
    }

    /** Pass a place of the given attempt. */
    method Pass(attempt: nat, place: Place)
      requires IsPassed(place, attempt)
      modifies this`cancelled
      ensures old(cancelled) != 0 || !accepting ==> cancelled == old(cancelled)
      ensures accepting && signals(At(attempt, place)) != 0 ==> cancelled != 0
      ensures cancelled == old(cancelled)
              || (old(cancelled) == 0 && accepting && Delivers(At(attempt, place), cancelled)
                  && Delivered(cancelled, attempt) && (!place.Leaving? ==> DeliveredEarly(cancelled, attempt)))
      ensures cancelled != old(cancelled) ==>
                && (place.Waiting? ==> DeliveredWaiting(cancelled, attempt))
                && (place.Deciding? ==> DeliveredLate(cancelled, attempt, true))
                && (place.Leaving? ==>
                      DeliveredLate(cancelled, attempt, true) && DeliveredLate(cancelled, attempt, false))
    {
      Interrupts(At(attempt, place));
      if Delivers(At(attempt, place), cancelled) {
        DeliveredHere(cancelled, attempt, place);
      }
    }

    // -------------------------------------------------------------- stopping

    /** The last thing logged is a listing in which the group of the exited leader has no executable member. */
    ghost predicate SeenQuiet(phase: Phase)
      reads phase, phase.child
    {
      var log := phase.child.log;
      && phase.owned && phase.child.leader.Zombie?
      && |log| > 0 && IsQuiet(log[|log| - 1], phase.child.pid)
    }

    /** Whether the exited group has no executable member left, and whether the observation could be trusted. */
    method Check(phase: Phase, deadline: real) returns (quiet: bool, fine: bool)
      requires phase.Valid()
      modifies phase`owned, phase`status, phase`errors,
               phase.child`leader, phase.child`now, phase.child`log, phase.child`watch
      ensures phase.Valid() && phase.reaped == old(phase.reaped)
      ensures Watched(old(phase.child.log), phase.child.log) && old(phase.child.watch) <= phase.child.watch
      ensures phase.owned ==> old(phase.owned)
      ensures old(phase.status).Some? || !old(phase.owned) ==> phase.status == old(phase.status)
      ensures !old(phase.owned) ==> phase.child.log == old(phase.child.log)
      ensures old(phase.owned) && !phase.owned ==> phase.child.log == old(phase.child.log) + [Disowned(true)]
      ensures old(phase.child.now) <= phase.child.now
      ensures phase.child.exact ==>
                phase.child.now <= Min(Max(old(phase.child.now), deadline), old(phase.child.now) + 1.0)
      ensures old(phase.owned) ==>
                && |phase.child.watch| == |old(phase.child.watch)| + 1
                && phase.child.watch[|old(phase.child.watch)|].at == old(phase.child.now)
      ensures quiet ==> fine && SeenQuiet(phase) && phase.status.Some? && phase.errors == old(phase.errors)
      ensures old(phase.owned) && phase.child.gentle && old(phase.child.now) < deadline ==> quiet
      ensures !quiet && NeverQuiet(old(phase.child.log), phase.child.pid) ==>
                NeverQuiet(phase.child.log, phase.child.pid)
      ensures !fine ==> !Untroubled(phase.child.log)
      ensures old(phase.owned) ==>
                && |phase.child.log| == |old(phase.child.log)| + 1
                && IsLook(phase.child.log[|old(phase.child.log)|])
    {
      hide Orderly, Owned, WasReaped, Untroubled, Quiescent, ReadableRows;
      var exited := phase.Observe();
      ghost var log := phase.child.log;
      if !exited {
        if phase.owned {
          Appended(log, StillRunning);
          phase.child.log := log + [StillRunning];
        }
        return false, true;
      }
      var listing := phase.child.ListProcesses(deadline);
      match listing
      case Late =>
        Appended(log, Unlisted);
        phase.errors := phase.errors + [ListingTimeout];
        return false, false;
      case Broken =>
        Appended(log, Unlisted);
        phase.errors := phase.errors + [ListingFailed];
        return false, false;
      case Rows(rows) =>
        Appended(log, Listed(rows));
        var running := ExecutableMembers(rows, phase.child.pid);
        if running.None? {
          QuietIsReadable(rows, phase.child.pid);
          phase.errors := phase.errors + [ListingFailed];
          return false, false;
        }
        return !running.value, true;
    }

    /** The grace period is long enough for an observation after the signal. */
    predicate IsWorthALook(now: real, signal: Signal, termDeadline: real) {
      if signal.Term? then now < termDeadline && termDeadline - now >= Min(0.05, termSeconds / 4.0)
      else killSeconds > 0.0
    }

    /** Watch the signalled group until it is quiet, unowned, unreadable or out of time. */
    method Follow(phase: Phase, deadline: real, grace: real, trusted: bool) returns (quiet: bool, valid: bool)
      requires phase.Valid() && !phase.reaped && phase.child.exact == exact && grace >= 0.0
      requires NeverQuiet(phase.child.log, phase.child.pid)
      requires !trusted ==> !Untroubled(phase.child.log)
      modifies phase`owned, phase`status, phase`errors,
               phase.child`leader, phase.child`now, phase.child`log, phase.child`watch
      ensures phase.Valid() && !phase.reaped && old(phase.child.watch) <= phase.child.watch
      ensures old(phase.child.now) <= phase.child.now && Watched(old(phase.child.log), phase.child.log)
      ensures old(phase.owned) && !phase.owned ==> Disowned(true) in phase.child.log
      ensures phase.owned ==> old(phase.owned)
      ensures old(phase.status).Some? || !old(phase.owned) ==> phase.status == old(phase.status)
      ensures exact ==> phase.child.now <= Max(old(phase.child.now), deadline)
      ensures !quiet && phase.owned && valid ==> phase.child.now >= deadline
      ensures exact ==> Steady(phase.child.watch, |old(phase.child.watch)|, 1.02)
      ensures exact && |phase.child.watch| > |old(phase.child.watch)| ==>
                phase.child.now <= phase.child.watch[|phase.child.watch| - 1].at + 1.07
      ensures old(phase.owned) && deadline - old(phase.child.now) >= Min(0.05, grace / 4.0)
              && old(phase.child.now) < deadline ==>
                |phase.child.log| > |old(phase.child.log)| && IsLook(phase.child.log[|old(phase.child.log)|])
      ensures quiet ==> SeenQuiet(phase) && phase.status.Some?
      ensures !quiet ==> NeverQuiet(phase.child.log, phase.child.pid)
      ensures !valid ==> !Untroubled(phase.child.log)
    {
      hide Orderly, Owned, WasReaped, Untroubled, Quiescent, NeverQuiet, IsLook, Signals, Patient;
      var kernel := phase.child;
      ghost var start, log := kernel.now, kernel.log;
      quiet, valid := false, trusted;
      while phase.owned && kernel.now < deadline
        invariant phase.Valid() && !phase.reaped && old(kernel.watch) <= kernel.watch
        invariant start <= kernel.now && Watched(log, kernel.log)
        invariant old(phase.owned) && !phase.owned ==> Disowned(true) in kernel.log
        invariant phase.owned ==> old(phase.owned)
        invariant old(phase.status).Some? || !old(phase.owned) ==> phase.status == old(phase.status)
        invariant exact ==> kernel.now <= Max(start, deadline)
        invariant !quiet && NeverQuiet(kernel.log, kernel.pid)
        invariant !valid ==> !Untroubled(kernel.log)
        invariant if |kernel.log| == |log| then kernel.now == start && phase.owned == old(phase.owned)
                  else IsLook(kernel.log[|log|])
        invariant exact ==> Steady(kernel.watch, |old(kernel.watch)|, 1.02)
        invariant exact && |kernel.watch| > |old(kernel.watch)| ==>
                    kernel.now <= kernel.watch[|kernel.watch| - 1].at + 1.02
        decreases Naps(deadline - kernel.now)
      {
        var remaining := deadline - kernel.now;
        if remaining < Min(0.05, grace / 4.0) {
          kernel.Sleep(remaining);
          break;
        }
        var fine;
        ghost var earlier := kernel.log;
        quiet, fine := Check(phase, deadline);
        WatchedKeeps(earlier, kernel.log, deadline);
        valid := valid && fine;
        if quiet || !valid {
          break;
        }
        kernel.Sleep(Min(0.02, Max(0.0, deadline - kernel.now)));
        NapShortens(remaining, deadline - kernel.now);
      }
    }

    /** Signal once, then watch the group for its grace period. */
    method Escalate(phase: Phase, signal: Signal, termDeadline: real, trusted: bool) returns (quiet: bool, valid: bool)
      requires phase.Valid() && phase.owned && phase.child.exact == exact
      requires termSeconds >= 0.0 && killSeconds >= 0.0
      requires NeverQuiet(phase.child.log, phase.child.pid)
      requires !trusted ==> !Untroubled(phase.child.log)
      requires signal.Kill? && trusted ==> phase.child.now >= termDeadline
      requires Patient(phase.child.log, termDeadline) && NoKill(phase.child.log)
      modifies phase`owned, phase`status, phase`errors,
               phase.child`leader, phase.child`now, phase.child`log, phase.child`watch
      ensures phase.Valid() && !phase.reaped && old(phase.child.watch) <= phase.child.watch
      ensures old(phase.child.now) <= phase.child.now
      ensures Signals(phase.child.log) == Signals(old(phase.child.log)) + [signal]
              || (!phase.owned && Signals(phase.child.log) == Signals(old(phase.child.log)))
      ensures !phase.owned ==> Disowned(true) in phase.child.log
      ensures Patient(phase.child.log, termDeadline)
      ensures old(phase.status).Some? ==> phase.status == old(phase.status)
      ensures exact && signal.Term? ==> phase.child.now <= Max(old(phase.child.now), termDeadline)
      ensures exact && signal.Kill? ==> phase.child.now <= old(phase.child.now) + killSeconds
      ensures signal.Term? && !quiet && phase.owned && valid ==> phase.child.now >= termDeadline
      ensures signal.Kill? && !quiet && phase.owned && valid ==> phase.child.now >= old(phase.child.now) + killSeconds
      ensures phase.owned && IsWorthALook(old(phase.child.now), signal, termDeadline) ==>
                var n := |old(phase.child.log)|;
                |phase.child.log| >= n + 2 && phase.child.log[n].Signalled? && IsLook(phase.child.log[n + 1])
      ensures Enduring(phase.child.log, phase.child.pid, phase.child.now, killSeconds)
      ensures signal.Term? ==> NoKill(phase.child.log)
      ensures quiet ==> SeenQuiet(phase) && phase.status.Some?
      ensures !quiet ==> NeverQuiet(phase.child.log, phase.child.pid)
      ensures !valid ==> !Untroubled(phase.child.log)
    {
      hide Orderly, Owned, WasReaped, Untroubled, Quiescent, Signals, Patient, NeverQuiet, IsLook, Enduring, NoKill;
      var kernel := phase.child;
      ghost var start, before := kernel.now, kernel.log;
      var signalled := phase.SignalGroup(signal);
      ghost var sent, log := Signalled(signal, true, !signalled, start), kernel.log;
      AppendedTo(before, sent, kernel.pid, termDeadline);
      AppendedTo(before, Disowned(true), kernel.pid, termDeadline);
      var deadline := if signal.Term? then termDeadline else kernel.now + killSeconds;
      var grace := if signal.Term? then termSeconds else killSeconds;
      quiet, valid := Follow(phase, deadline, grace, trusted && signalled);
      WatchedKeeps(log, kernel.log, termDeadline);
      LossAndQuietShow(kernel.log, kernel.pid);
      if log == before + [sent] {
        KillEndures(before, kernel.log, sent, kernel.pid, kernel.now, killSeconds);
      } else {
        WatchedEndures(before, kernel.log, kernel.pid, start, kernel.now, killSeconds);
      }
    }

    /** Look, then signal, then kill: as far as it takes, and no further than the leader is owned. */
    method Quell(phase: Phase, termDeadline: real) returns (quiet: bool, valid: bool)
      requires phase.Valid() && phase.child.exact == exact && !phase.reaped
      requires phase.child.log == if phase.owned then [] else [Disowned(true)]
      requires termSeconds >= 0.0 && killSeconds >= 0.0 && phase.child.now <= termDeadline
      modifies phase`owned, phase`status, phase`errors,
               phase.child`leader, phase.child`now, phase.child`log, phase.child`watch
      ensures phase.Valid() && !phase.reaped && old(phase.child.watch) <= phase.child.watch
      ensures Signals(phase.child.log) in [[], [Term], [Term, Kill]] && Patient(phase.child.log, termDeadline)
      ensures quiet || Disowned(true) in phase.child.log || Signals(phase.child.log) == [Term, Kill]
      ensures phase.owned ==> old(phase.owned)
      ensures old(phase.status).Some? || !old(phase.owned) ==> phase.status == old(phase.status)
      ensures exact ==> phase.child.now <= termDeadline + killSeconds
      ensures if quiet then SeenQuiet(phase) && phase.status.Some? else NeverQuiet(phase.child.log, phase.child.pid)
      ensures !valid ==> !Untroubled(phase.child.log)
      ensures Enduring(phase.child.log, phase.child.pid, phase.child.now, killSeconds)
      ensures old(phase.owned) && phase.child.gentle && old(phase.child.now) < termDeadline ==>
                quiet && valid && phase.owned && phase.errors == old(phase.errors)
    {
      hide Orderly, Owned, WasReaped, Untroubled, IsQuiet, IsTrouble, Signals, Patient, NeverQuiet, Enduring, NoKill,
           IsLook;
      ghost var first := phase.child.log;
      BeginsPatient(first, phase.child.pid, termDeadline);
      assert [] + [Term] == [Term] && [Term] + [Kill] == [Term, Kill];
      quiet, valid := Check(phase, termDeadline);
      WatchedKeeps(first, phase.child.log, termDeadline);
      WatchedEndures(first, phase.child.log, phase.child.pid, old(phase.child.now), phase.child.now, killSeconds);
      assert !phase.owned ==> Disowned(true) in phase.child.log;
      if !quiet && phase.owned {
        quiet, valid := Escalate(phase, Term, termDeadline, valid);
        if !quiet && phase.owned {
          quiet, valid := Escalate(phase, Kill, termDeadline, valid);
        }
      }
    }

    /** Stop the group and reconcile it. Every path ends with ownership given up. */
    method StopPhase(phase: Phase) returns (confirmed: bool)
      requires phase.Valid() && phase.child.exact == exact && !phase.reaped
      requires phase.child.log == if phase.owned then [] else [Disowned(true)]
      requires termSeconds >= 0.0 && killSeconds >= 0.0
      modifies this`unresolved, this`processCleanupConfirmed, phase, phase.child
      ensures phase.Valid() && !phase.owned && Dismissed(phase.child)
      ensures Patient(phase.child.log, old(phase.child.now) + termSeconds)
      ensures Enduring(phase.child.log, phase.child.pid, phase.child.now, killSeconds)
      ensures confirmed <==> Settled(phase.child.log, phase.child.pid)
      ensures confirmed ==> phase.reaped && phase.errors == [] && phase.status.Some?
      ensures old(phase.owned) && phase.child.gentle && termSeconds > 0.0 ==> confirmed
      ensures old(phase.status).Some? || !old(phase.owned) ==> phase.status == old(phase.status)
      ensures old(phase.child.watch) <= phase.child.watch
      ensures processCleanupConfirmed == (old(processCleanupConfirmed) && confirmed)
      ensures unresolved == old(unresolved) + if WasReaped(phase.child.log) then 0 else 1
      ensures exact ==> phase.child.now <= old(phase.child.now) + termSeconds + killSeconds
    {
      hide Orderly, Owned, WasReaped, Untroubled, IsQuiet, IsTrouble, Signals, Patient, NeverQuiet, Thorough,
           ConfirmedStop, Enduring;
      var termDeadline := phase.child.now + termSeconds;
      BeginsPatient(phase.child.log, phase.child.pid, termDeadline);
      var quiet, valid := Quell(phase, termDeadline);
      ghost var watched, stopped := phase.child.log, phase.child.now;
      var done := phase.Reap();
      WatchedKeeps(watched, phase.child.log, termDeadline);
      WatchedEndures(watched, phase.child.log, phase.child.pid, stopped, phase.child.now, killSeconds);
      Concluded(watched, phase.child.log, phase.child.pid, quiet, done);
      StaysThorough(watched, phase.child.log, phase.child.pid, quiet);
      if !done {
        unresolved := unresolved + 1;
      }
      confirmed := valid && quiet && done && phase.errors == [];
      if !confirmed {
        processCleanupConfirmed := false;
      }
    }

    // -------------------------------------------------------------- one phase

    /** Start a child, or fail to. */
    method Start(now: real) returns (child: Kernel?)
      modifies this`children
      ensures children == old(children) + [child]
      ensures child == null <==> fates(|old(children)|).NoStart?
      ensures child != null ==>
                && fresh(child) && child.log == [] && child.watch == [] && !child.leader.Gone?
                && child.exact == exact && child.now == now == child.born
                && IsGentle(child, fates(|old(children)|)) && (child.gentle ==> child.leader.Zombie?)
    {
      child := null;
      var fate := fates(|children|);
      if !fate.NoStart? {
        child := new Kernel(exact, now, fate);
      }
      children := children + [child];
    }

    ghost predicate IsGentle(child: Kernel, fate: Fate) {
      (child.gentle <==> fate.Gentle?) && (fate.Gentle? ==> child.exit == fate.exit)
    }

    /** Between two looks at the leader: read the cancellation, then the clock. */
    method Poll(now: real, deadline: real, cleanup: bool, attempt: nat, n: nat) returns (goesOn: bool, timedOut: bool)
      requires !fates(attempt).Gentle?
      modifies this`cancelled
      ensures old(cancelled) != 0 || !accepting ==> cancelled == old(cancelled)
      ensures cancelled == old(cancelled) || DeliveredEarly(cancelled, attempt)
      ensures goesOn ==> now < deadline
      ensures timedOut ==> !goesOn && now >= deadline
      ensures !goesOn && !timedOut ==> !cleanup && cancelled != 0
      ensures (goesOn || timedOut) && !cleanup ==>
                old(cancelled) == 0 && (cancelled == 0 || DeliveredWaiting(cancelled, attempt))
    {
      hide DeliveredEarly, Delivers, DeliveredWaiting, DeliveredLate;
      Pass(attempt, Looking(n));
      if cancelled != 0 && !cleanup {
        return false, false;
      }
      Pass(attempt, Waiting(n));
      return now < deadline, now >= deadline;
    }

    /** Wait for the leader to exit, for an interruption, or for the end of the work budget. */
    method Await(phase: Phase, deadline: real, cleanup: bool, attempt: nat)
      returns (timedOut: bool, ghost interrupted: bool)
      requires phase.Valid() && phase.owned && phase.status == None && phase.child.exact == exact
      requires phase.child.log == [] && phase.child.watch == [] && (cancelled == 0 || cleanup)
      requires IsGentle(phase.child, fates(attempt))
      modifies this`cancelled, phase`owned, phase`status, phase`errors,
               phase.child`leader, phase.child`now, phase.child`log, phase.child`watch
      ensures phase.Valid() && !phase.reaped && phase.child.log == if phase.owned then [] else [Disowned(true)]
      ensures old(cancelled) != 0 || !accepting ==> cancelled == old(cancelled)
      ensures cancelled == old(cancelled) || (!phase.child.gentle && DeliveredEarly(cancelled, attempt))
      ensures interrupted ==> !cleanup && cancelled != 0
      ensures !interrupted && !cleanup ==> cancelled == 0 || DeliveredWaiting(cancelled, attempt)
      ensures var seen := Outcome(phase.child.watch, deadline);
              && (timedOut <==> seen == Some(NotYet) && !interrupted)
              && (seen == None ==> interrupted)
              && (seen == Some(WaitError) <==> !phase.owned)
              && (if phase.status.Some? then seen == Some(Exited(phase.status.value))
                  else seen in {None, Some(NotYet), Some(WaitError)})
      ensures phase.child.gentle ==> phase.owned && phase.status == Some(phase.child.exit) && !interrupted
      ensures exact ==> phase.child.now <= Max(old(phase.child.now), deadline + 0.02)
      ensures exact ==> Steady(phase.child.watch, 0, 0.02)
    {
      hide Orderly, Owned, WasReaped, Untroubled, DeliveredEarly, Delivers, DeliveredWaiting, DeliveredLate, IsLate,
           Steady;
      timedOut, interrupted := false, false;
      var exited := phase.Observe();
      OutcomeStays([], phase.child.watch, deadline);
      SteadyNext([], phase.child.watch, 0.02);
      var n := 0;
      while !exited && phase.owned
        invariant phase.Valid() && !phase.reaped && !interrupted && !timedOut
        invariant phase.child.log == if phase.owned then [] else [Disowned(true)]
        invariant old(cancelled) != 0 || !accepting ==> cancelled == old(cancelled)
        invariant cancelled == old(cancelled) || (!phase.child.gentle && DeliveredEarly(cancelled, attempt))
        invariant !cleanup ==> cancelled == 0 || DeliveredWaiting(cancelled, attempt)
        invariant exited ==> phase.owned && phase.status == Some(phase.child.exit)
        invariant !exited ==> phase.status == None && !phase.child.gentle
        invariant Outcome(phase.child.watch, deadline) ==
                    if exited then Some(Exited(phase.child.exit))
                    else if !phase.owned then Some(WaitError)
                    else if phase.child.now < deadline then None else Some(NotYet)
        invariant exact ==> phase.child.now <= Max(old(phase.child.now), deadline + 0.02)
        invariant |phase.child.watch| > 0 && phase.child.watch[|phase.child.watch| - 1].at == phase.child.now
        invariant exact ==> Steady(phase.child.watch, 0, 0.02)
        decreases Naps(deadline - phase.child.now + 0.02)
      {
        var goesOn;
        goesOn, timedOut := Poll(phase.child.now, deadline, cleanup, attempt, n);
        if !goesOn {
          interrupted := !timedOut;
          break;
        }
        ghost var watch, remaining := phase.child.watch, deadline - phase.child.now + 0.02;
        phase.child.Sleep(0.02);
        NapShortens(remaining, deadline - phase.child.now + 0.02);
        exited := phase.Observe();
        OutcomeStays(watch, phase.child.watch, deadline);
        if exact {
          SteadyNext(watch, phase.child.watch, 0.02);
        }
        n := n + 1;
      }
    }

    /** Watch a started child to the end of its wait, then stop its group. */
    method Attend(child: Kernel, seconds: real, cleanup: bool, attempt: nat)
      returns (timedOut: bool, stopped: bool, status: Option<nat>, ghost interrupted: bool)
      requires child.log == [] && child.watch == [] && !child.leader.Gone? && child.exact == exact
      requires child.now == child.born && termSeconds >= 0.0 && killSeconds >= 0.0 && seconds >= 0.0
      requires (child.gentle ==> child.leader.Zombie?) && (cancelled == 0 || cleanup) && IsGentle(child, fates(attempt))
      modifies this`cancelled, this`unresolved, this`processCleanupConfirmed, child
      ensures old(cancelled) != 0 || !accepting ==> cancelled == old(cancelled)
      ensures cancelled == old(cancelled) || (!child.gentle && DeliveredEarly(cancelled, attempt))
      ensures interrupted ==> !cleanup && cancelled != 0 && !timedOut
      ensures timedOut && !cleanup ==> cancelled == 0 || DeliveredWaiting(cancelled, attempt)
      ensures Dismissed(child) && Enduring(child.log, child.pid, child.now, killSeconds)
      ensures exact ==> child.now <= child.born + seconds + 0.02 + termSeconds + killSeconds
      ensures !interrupted ==>
                var seen := Outcome(child.watch, child.born + seconds);
                && seen.Some? && (timedOut <==> seen == Some(NotYet))
                && (seen == Some(WaitError) ==> status == None)
                && (seen.value.Exited? ==> status == Some(seen.value.status))
      ensures child.gentle && termSeconds > 0.0 ==> !interrupted && stopped && status == Some(child.exit)
      ensures child.gentle ==> Outcome(child.watch, child.born + seconds) == Some(Exited(child.exit))
      ensures stopped <==> Settled(child.log, child.pid)
      ensures processCleanupConfirmed == (old(processCleanupConfirmed) && stopped)
      ensures unresolved == old(unresolved) + if WasReaped(child.log) then 0 else 1
    {
      hide Outcome, Settled, WasReaped, Dismissed, Enduring, Orderly, Owned, Untroubled, Patient, DeliveredEarly,
           Delivers;
      var phase := new Phase(child);
      timedOut, interrupted := Await(phase, child.born + seconds, cleanup, attempt);
      ghost var watched := child.watch;
      stopped := StopPhase(phase);
      OutcomeStays(watched, child.watch, child.born + seconds);
      status := phase.status;
    }

    /** The n-th attempt: its child, if it started, was watched and then left alone for good, in bounded time. */
    ghost predicate Tended(n: nat, child: Kernel?, seconds: real)
      reads child
    {
      && (child == null <==> fates(n).NoStart?)
      && (child != null ==>
            && Dismissed(child) && Enduring(child.log, child.pid, child.now, killSeconds)
            && (exact ==> child.now <= child.born + seconds + 0.02 + termSeconds + killSeconds))
      && (fates(n).Gentle? && termSeconds > 0.0 ==> Status(child, seconds, false) == fates(n).exit)
    }

    /** See a started child through: the end of its wait, its stop, and what to report. */
    method Conduct(child: Kernel, seconds: real, cleanup: bool, attempt: nat) returns (result: nat, ghost noticed: nat)
      requires child.log == [] && child.watch == [] && !child.leader.Gone? && child.exact == exact
      requires child.now == child.born && termSeconds >= 0.0 && killSeconds >= 0.0 && seconds >= 0.0
      requires (child.gentle ==> child.leader.Zombie?) && (cancelled == 0 || cleanup) && IsGentle(child, fates(attempt))
      requires !fates(attempt).NoStart?
      modifies this`cancelled, this`unresolved, this`processCleanupConfirmed, child
      ensures old(cancelled) != 0 || !accepting ==> cancelled == old(cancelled)
      ensures cancelled == old(cancelled) || Delivered(cancelled, attempt)
      ensures Tended(attempt, child, seconds) && Reports(result, child, seconds, cleanup, noticed)
      ensures !cleanup ==> Noticed(noticed, attempt, TimedOut(child, seconds))
      ensures noticed != 0 ==> DeliveredEarly(noticed, attempt)
      ensures accepting && !cleanup && !TimedOut(child, seconds) && signals(At(attempt, Deciding)) != 0 ==> noticed != 0
      ensures accepting && signals(At(attempt, Leaving)) != 0 ==> cancelled != 0
      ensures processCleanupConfirmed == (old(processCleanupConfirmed) && Settled(child.log, child.pid))
      ensures unresolved == old(unresolved) + if WasReaped(child.log) then 0 else 1
    {
      hide Outcome, Settled, WasReaped, Dismissed, Enduring, Succeeded, Status, TimedOut, Reports,
           DeliveredEarly, Delivers, DeliveredWaiting, DeliveredLate;
      var timedOut, stopped, status;
      ghost var interrupted;
      timedOut, stopped, status, interrupted := Attend(child, seconds, cleanup, attempt);
      if child.gentle && termSeconds > 0.0 {
        StatusIs(child, seconds, false, timedOut, stopped, status);
      }
      if timedOut && !cleanup && cancelled != 0 {
        WaitingIsLate(cancelled, attempt);
      }
      Pass(attempt, Deciding);
      var heard := if cleanup then 0 else cancelled;
      result := if timedOut then (if cleanup then 1 else 124)
                else if heard != 0 then heard
                else if status.Some? && status.value != 0 then status.value
                else if stopped && status == Some(0) then 0 else 1;
      noticed := if timedOut then 0 else heard;
      ReportIs(child, seconds, cleanup, interrupted, timedOut, stopped, status, heard, result);
      Pass(attempt, Leaving);
    }

    /** Run one command within its budget, and settle its group whatever happens. */
    method RunPhase(now: real, seconds: real, cleanup: bool) returns (result: nat, ghost noticed: nat)
      requires termSeconds >= 0.0 && killSeconds >= 0.0 && seconds >= 0.0
      modifies this`cancelled, this`unresolved, this`processCleanupConfirmed, this`children
      ensures old(cancelled) != 0 || !accepting ==> cancelled == old(cancelled)
      ensures cancelled == old(cancelled) || Delivered(cancelled, |old(children)|)
      ensures noticed != 0 ==> noticed == old(cancelled) || DeliveredEarly(noticed, |old(children)|)
      ensures children == old(children) || (|children| == |old(children)| + 1 && old(children) <= children)
      ensures |children| == |old(children)| <==>
                !cleanup && (old(cancelled) != 0 || (accepting && signals(At(|old(children)|, Entering)) != 0))
      ensures |children| == |old(children)| ==>
                && noticed == cancelled != 0 && result == noticed
                && processCleanupConfirmed == old(processCleanupConfirmed) && unresolved == old(unresolved)
      ensures |children| > |old(children)| ==>
                && var child := children[|old(children)|];
                && Tended(|old(children)|, child, seconds)
                && Reports(result, child, seconds, cleanup, noticed)
                && (!cleanup ==> Noticed(noticed, |old(children)|, TimedOut(child, seconds)))
                && (accepting && !cleanup && child != null && signals(At(|old(children)|, Deciding)) != 0 ==>
                      noticed != 0 || TimedOut(child, seconds))
                && (accepting && signals(At(|old(children)|, Leaving)) != 0 ==> cancelled != 0)
                && (child != null ==> fresh(child) && child.born == now)
                && processCleanupConfirmed == (old(processCleanupConfirmed) && IsSettled(child))
                && unresolved == old(unresolved) + if child == null || WasReaped(child.log) then 0 else 1
    {
      hide Outcome, Settled, WasReaped, Dismissed, Enduring, Succeeded, Reports, TimedOut,
           DeliveredEarly, DeliveredWaiting, DeliveredLate;
      var attempt := |children|;
      Pass(attempt, Entering);
      if cancelled != 0 && !cleanup {
        result, noticed := cancelled, cancelled;
        return;
      }
      var child := Start(now);
      assert children[attempt] == child;
      if child == null {
        NothingStarted(seconds, cleanup);
        Pass(attempt, Leaving);
        return 1, 0;
      }
      result, noticed := Conduct(child, seconds, cleanup, attempt);
    }

    // -------------------------------------------------------------- the whole run

    /** Each attempt of the work was tended to. */
    ghost predicate AllTended(work: seq<Kernel?>)
      requires |work| <= |BUDGETS|
      reads work
    {
      forall i :: 0 <= i < |work| ==> Tended(i, work[i], BUDGETS[i])
    }

    /** This status was delivered where the work still reads the cancellation: not as it leaves its last phase. */
    ghost predicate DeliveredInTime(status: nat) {
      exists i :: 0 <= i < |BUDGETS|
        && (DeliveredEarly(status, i) || (i + 1 < |BUDGETS| && Delivers(At(i, Leaving), status)))
    }

    /** This status was delivered in one of the first n attempts. */
    ghost predicate DeliveredBefore(status: nat, n: nat) {
      exists i :: 0 <= i < n && Delivered(status, i)
    }

    lemma InTime(status: nat, i: nat)
      requires i < |BUDGETS|
      ensures DeliveredEarly(status, i) ==> DeliveredInTime(status)
      ensures DeliveredBefore(status, i) ==> DeliveredInTime(status)
    {
      if DeliveredBefore(status, i) {
        var j :| 0 <= j < i && Delivered(status, j);
      }
    }

    lemma OneMoreAttempt(status: nat, i: nat)
      ensures DeliveredBefore(status, i) || Delivered(status, i) ==> DeliveredBefore(status, i + 1)
    {
      if j :| 0 <= j < i && Delivered(status, j) {
        assert 0 <= j < i + 1;
      }
    }

    /** `noticed` is the cancellation as the work last read it: in the phase not started, or in the last one started. */
    ghost predicate WorkNoticed(work: seq<Kernel?>, noticed: nat)
      requires |work| <= |BUDGETS|
      reads this`cancelled, work
    {
      var n := |work|;
      cancelled == noticed || (n > 0 && Noticed(noticed, n - 1, TimedOut(work[n - 1], BUDGETS[n - 1])))
    }

    /** The i-th phase of the work, all before it having passed. */
    method Proceed(i: nat) returns (result: nat, ghost noticed: nat)
      requires termSeconds >= 0.0 && killSeconds >= 0.0
      requires i < |BUDGETS| && |children| == i && Passed(children) && AllSettled(children) && AllTended(children)
      modifies this`cancelled, this`unresolved, this`processCleanupConfirmed, this`children
      ensures old(cancelled) != 0 || !accepting ==> cancelled == old(cancelled)
      ensures cancelled == old(cancelled) || Delivered(cancelled, i)
      ensures i <= |children| <= i + 1 && old(children) <= children && AllTended(children)
      ensures |children| == i + 1 ==> children[i] == null || fresh(children[i])
      ensures noticed != 0 ==> noticed == old(cancelled) || DeliveredEarly(noticed, i)
      ensures accepting && result == 0 ==>
                old(cancelled) == signals(At(i, Entering)) == signals(At(i, Deciding)) == 0
      ensures accepting && |children| == i + 1 && signals(At(i, Leaving)) != 0 ==> cancelled != 0
      ensures if result == 0 then |children| == i + 1 && Passed(children) && AllSettled(children) && noticed == 0
              else Failed(children, result, noticed)
      ensures WorkNoticed(children, noticed) && (noticed == 0 || noticed == cancelled)
      ensures processCleanupConfirmed == (old(processCleanupConfirmed) && AllSettled(children))
    {
      hide Succeeded, Settled, IsSettled, Tended, Reports, TimedOut, Delivered, DeliveredLate, Passed, Failed,
           AllTended, AllSettled;
      var now: real := *;
      ghost var work := children;
      result, noticed := RunPhase(now, BUDGETS[i], false);
      if |children| == i {
        FailedNow(work, null, result, noticed);
        return;
      }
      ghost var child := children[i];
      assert children == work + [child] && children[..i] == work;
      AllSettledOneMore(work, child);
      AllTendedOneMore(work, child);
      if result == 0 {
        ReportsSuccess(child, BUDGETS[i], false, noticed);
        SuccessIsInTime(child, BUDGETS[i]);
        PassedOneMore(work, child);
      } else {
        FailedNow(work, child, result, noticed);
      }
    }

    lemma AllTendedOneMore(work: seq<Kernel?>, child: Kernel?)
      requires |work| < |BUDGETS| && AllTended(work) && Tended(|work|, child, BUDGETS[|work|])
      ensures AllTended(work + [child])
    {
      hide Tended;
    }

    /** The six phases in order, up to the first that fails. */
    method Work() returns (result: nat, ghost noticed: nat)
      requires termSeconds >= 0.0 && killSeconds >= 0.0
      requires !qualificationComplete && !volumeBaselineComplete && children == []
      modifies this`cancelled, this`unresolved, this`processCleanupConfirmed, this`qualificationComplete,
               this`volumeBaselineComplete, this`children
      ensures old(cancelled) != 0 || !accepting ==> cancelled == old(cancelled)
      ensures noticed != 0 ==> noticed == cancelled && (noticed == old(cancelled) || DeliveredInTime(noticed))
      ensures accepting && result == 0 ==> Undisturbed(signals, |BUDGETS|)
      ensures |children| <= |BUDGETS| && AllTended(children) && WorkNoticed(children, noticed)
      ensures forall i :: 0 <= i < |children| ==> children[i] == null || fresh(children[i])
      ensures if result == 0 then Complete(children) && noticed == 0 else Failed(children, result, noticed)
      ensures processCleanupConfirmed == (old(processCleanupConfirmed) && AllSettled(children))
      ensures qualificationComplete <==> result == 0
      ensures volumeBaselineComplete ==> |children| >= 2 && Passed(children[..2])
      ensures |children| > 2 ==> volumeBaselineComplete
    {
      hide Succeeded, Settled, IsSettled, Tended, Failed, Delivered, DeliveredEarly, DeliveredBefore, DeliveredInTime,
           AllTended, WorkNoticed, AllSettled;
      NothingYet();
      noticed := cancelled;
      for i := 0 to |BUDGETS|
        invariant |children| == i && Passed(children) && AllSettled(children) && AllTended(children)
        invariant old(cancelled) != 0 || !accepting ==> cancelled == old(cancelled)
        invariant cancelled == old(cancelled) || DeliveredBefore(cancelled, i)
        invariant accepting ==> Undisturbed(signals, i)
        invariant accepting && i > 0 && signals(At(i - 1, Leaving)) != 0 ==> cancelled != 0
        invariant i == 0 ==> noticed == cancelled == old(cancelled)
        invariant WorkNoticed(children, noticed) && (i > 0 ==> noticed == 0)
        invariant forall j :: 0 <= j < i ==> children[j] == null || fresh(children[j])
        invariant processCleanupConfirmed == old(processCleanupConfirmed)
        invariant !qualificationComplete && (volumeBaselineComplete <==> i >= 2)
      {
        ghost var work := children;
        ghost var heard := cancelled;
        result, noticed := Proceed(i);
        InTime(noticed, i);
        OneMoreAttempt(cancelled, i);
        if result != 0 {
          return;
        }
        if i == 1 {
          volumeBaselineComplete := true;
        }
      }
      qualificationComplete := true;
      result := 0;
    }

    lemma NothingYet()
      ensures AllTended([]) && AllSettled([]) && Passed([]) && WorkNoticed([], cancelled)
    {
    }

    /** Clean up once, and keep an earlier failure. */
    method Finalize(status: nat, rewrote: bool, removed: bool) returns (result: nat)
      requires termSeconds >= 0.0 && killSeconds >= 0.0 && cleanupSeconds >= 0.0 && !accepting
      modifies this`cancelled, this`unresolved, this`processCleanupConfirmed, this`children
      ensures cancelled == old(cancelled) && |children| == |old(children)| + 1 && old(children) <= children
      ensures var cleaner := children[|old(children)|];
              && Tended(|old(children)|, cleaner, cleanupSeconds) && (cleaner == null || fresh(cleaner))
              && processCleanupConfirmed == (old(processCleanupConfirmed) && IsSettled(cleaner))
              && result == if status != 0 then status
                           else if Succeeded(cleaner, cleanupSeconds) && processCleanupConfirmed && rewrote && removed
                                && qualificationComplete then 0 else 1
    {
      hide Succeeded, Settled, IsSettled, Tended, Reports, TimedOut, Delivered, DeliveredLate;
      var now: real := *;
      var cleaned;
      ghost var unused;
      cleaned, unused := RunPhase(now, cleanupSeconds, true);
      ReportsSuccess(children[|old(children)|], cleanupSeconds, true, unused);
      result := Kept(status, cleaned == 0 && processCleanupConfirmed);
      result := Kept(result, rewrote);
      result := Kept(result, qualificationComplete);
      result := Kept(result, removed);
    }

    /** Run, clean up once, and report. Whether each of the three file operations succeeds is given. */
    method RunAll(wrote: bool, rewrote: bool, removed: bool) returns (result: nat, ghost noticed: nat)
      requires termSeconds >= 0.0 && killSeconds >= 0.0 && cleanupSeconds >= 0.0
      requires accepting && !qualificationComplete && !volumeBaselineComplete && children == []
      modifies this
      ensures 1 <= |children| <= |BUDGETS| + 1
      ensures AllTended(children[..|children| - 1])
      ensures Tended(|children| - 1, children[|children| - 1], cleanupSeconds)
      ensures var n := |children| - 1;
              && (result == 0 <==>
                    && wrote && rewrote && removed && noticed == 0 && old(processCleanupConfirmed)
                    && Complete(children[..n]) && Succeeded(children[n], cleanupSeconds))
              && (!wrote ==> n == 0 && result == 1 && noticed == 0)
              && (wrote && !(Complete(children[..n]) && noticed == 0) ==> Failed(children[..n], result, noticed))
              && (result in {0, 1} || Failed(children[..n], result, noticed))
      ensures noticed != 0 ==> noticed == cancelled && (noticed == old(cancelled) || DeliveredInTime(noticed))
      ensures result == 0 ==> Undisturbed(signals, |BUDGETS|)
      ensures wrote ==> WorkNoticed(children[..|children| - 1], noticed) || Delivers(HandingOver, cancelled)
      ensures cancelled == 0 ==> signals(HandingOver) == 0
      ensures processCleanupConfirmed == (old(processCleanupConfirmed) && AllSettled(children))
    {
      hide Succeeded, Settled, IsSettled, Tended, Complete, Failed, Passed, AllSettled, Delivered, DeliveredInTime,
           DeliveredLate, AllTended, WorkNoticed;
      NothingYet();
      result, noticed := 1, 0;
      if wrote {
        result, noticed := Work();
      }
      Interrupts(HandingOver);
      accepting := false;
      ghost var work, status := children, result;
      result := Finalize(result, rewrote, removed);
      assert children == work + [children[|work|]] && children[..|work|] == work;
      if work == [] {
        NothingYet();
      }
      AllSettledOneMore(work, children[|work|]);
      Verdict(work, children[|work|], cleanupSeconds, status, result, noticed, wrote, rewrote && removed,
              old(processCleanupConfirmed));
    }
  }

  // ---------------------------------------------------------------- the moment of a signal

  /** When all children exit at once with 0 and nothing fails, the run returns 0 exactly if no signal comes in time. */
  method BehavedRun(signals: Point -> nat) returns (result: nat, cancelled: nat)
    ensures result == 0 <==> Undisturbed(signals, |BUDGETS|)
    ensures Undisturbed(signals, |BUDGETS|) && signals(At(5, Leaving)) == 0 && signals(HandingOver) != 0 ==>
              cancelled == 128 + signals(HandingOver)
  {
    hide Succeeded, Settled, IsSettled, Outcome, TimedOut;
    var runner := new Runner(5.0, 5.0, 60.0, true, n => Gentle(0), signals);
    ghost var noticed;
    result, noticed := runner.RunAll(true, true, true);
    cancelled := runner.cancelled;
    ghost var work := runner.children[..|runner.children| - 1];
    if Undisturbed(signals, |BUDGETS|) {
      assert noticed == 0;
      if Failed(work, result, 0) {
        FailureIsFirst(work, result);
        assert false;
      }
      SuccessIsInTime(work[5], BUDGETS[5]);
    }
  }

  /** So a signal after the last read of the cancellation is recorded, and the run still returns 0. */
  method LateSignal(number: nat) returns (result: nat, cancelled: nat)
    requires number != 0
    ensures result == 0 && cancelled == 128 + number
  {
    result, cancelled := BehavedRun(p => if p == HandingOver then number else 0);
  }

  /** Neither does it override the status of a phase that failed before. */
  method LateSignalAfterFailure(number: nat, status: nat) returns (result: nat, cancelled: nat)
    requires number != 0 && status != 0
    ensures result == status && cancelled == 128 + number
  {
    hide Succeeded, Settled, IsSettled, Outcome;
    var runner := new Runner(5.0, 5.0, 60.0, true, n => Gentle(if n == 0 then status else 0),
                             p => if p == HandingOver then number else 0);
    ghost var noticed;
    result, noticed := runner.RunAll(true, true, true);
    cancelled := runner.cancelled;
    ghost var work := runner.children[..|runner.children| - 1];
    assert noticed == 0;
    assert work != [] ==> runner.Tended(0, work[0], BUDGETS[0]);
    assert Failed(work, result, 0);
    FailureIsFirst(work, result);
  }
}
