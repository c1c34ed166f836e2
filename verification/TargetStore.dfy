/** One `update` as its process runs it, while any number of others run theirs: its place among the interleaved ones. */
module TargetStore {
  import opened Text
  import opened Registry

  /** What happens to one update: interruptions, failures, the tries before its deadline, how the replacement ends. */
  datatype Weather = Weather(stoppedFirst: bool, setupFails: bool, patience: nat, stoppedAt: nat -> bool,
                             lockFailsAt: nat -> bool, readFails: bool, stoppedLast: bool, outcome: Outcome,
                             syncFails: bool)

  function Try(w: Weather, i: nat): Action {
    TryLock(w.stoppedAt(i), w.lockFailsAt(i), i >= w.patience)
  }

  function Tries(w: Weather, n: nat): seq<Action> {
    if n == 0 then [] else Tries(w, n - 1) + [Try(w, n - 1)]
  }

  function First(c: Change, w: Weather): seq<Action> {
    [Invoke(c), Check(w.stoppedFirst, w.setupFails)]
  }

  function Last(w: Weather): seq<Action> {
    [Read(w.readFails), Decide, Replace(w.stoppedLast, w.outcome), SyncDirectory(w.syncFails)]
  }

  /** The actions of an update that tries its lock so many times. */
  function Script(c: Change, w: Weather, tries: nat): seq<Action> {
    First(c, w) + Tries(w, tries) + Last(w)
  }

  /** The actions that one process took. */
  function Own(steps: seq<Step>, p: ProcessId): seq<Action> {
    if steps == [] then []
    else
      var last := steps[|steps| - 1];
      Own(steps[..|steps| - 1], p) + if last.process == p then [last.action] else []
  }

  predicate AreOthers(steps: seq<Step>, p: ProcessId) {
    forall i :: 0 <= i < |steps| ==> steps[i].process != p
  }

  lemma OneMore(host: Host, first: Option<Bytes>, steps: seq<Step>, step: Step)
    ensures Run(host, first, steps + [step]) == Next(host, Run(host, first, steps), step.process, step.action)
    ensures forall p :: Own(steps + [step], p) == Own(steps, p) + if step.process == p then [step.action] else []
  {
    hide Next;
    assert (steps + [step])[..|steps|] == steps;
  }

  lemma OtherStep(host: Host, s: System, q: ProcessId, action: Action, p: ProcessId)
    requires p != q
    ensures var t := Next(host, s, q, action);
            && (p in t.stages <==> p in s.stages) && (p in s.stages ==> t.stages[p] == s.stages[p])
            && (s.lock == Some(p) <==> t.lock == Some(p))
  {
    hide Load, Apply, ValidChange, Publishable, Published;
  }

  /** Whatever others do, they neither advance a process nor take its lock away. */
  lemma {:induction false} OthersKeep(host: Host, first: Option<Bytes>, steps: seq<Step>, more: seq<Step>, p: ProcessId)
    requires AreOthers(more, p)
    ensures var s, t := Run(host, first, steps), Run(host, first, steps + more);
            && (p in t.stages <==> p in s.stages) && (p in s.stages ==> t.stages[p] == s.stages[p])
            && (s.lock == Some(p) <==> t.lock == Some(p))
    ensures Own(steps + more, p) == Own(steps, p)
  {
    hide Next, Run;
    if more == [] {
      assert steps + more == steps;
    } else {
      var fewer, last := more[..|more| - 1], more[|more| - 1];
      OthersKeep(host, first, steps, fewer, p);
      OneMore(host, first, steps + fewer, last);
      assert steps + more == (steps + fewer) + [last];
      OtherStep(host, Run(host, first, steps + fewer), last.process, last.action, p);
    }
  }

  predicate HolderOk(s: System) {
    s.lock.Some? ==> s.lock.value in s.stages && Holding(s.stages[s.lock.value])
  }

  lemma StepKeepsHolder(host: Host, s: System, p: ProcessId, action: Action)
    requires HolderOk(s)
    ensures HolderOk(Next(host, s, p, action))
  {
    hide Load, Apply, ValidChange, Publishable, Published;
  }

  /** Only a process that is under way can hold the lock. */
  lemma {:induction false} HolderIsUnderWay(host: Host, first: Option<Bytes>, steps: seq<Step>)
    ensures HolderOk(Run(host, first, steps))
  {
    hide Next;
    if steps != [] {
      var earlier, last := steps[..|steps| - 1], steps[|steps| - 1];
      HolderIsUnderWay(host, first, earlier);
      StepKeepsHolder(host, Run(host, first, earlier), last.process, last.action);
    }
  }

  lemma TryStep(host: Host, s: System, p: ProcessId, c: Change, w: Weather, i: nat)
    requires p in s.stages && s.stages[p] == Waiting(c)
    ensures Next(host, s, p, Try(w, i)) ==
              if w.stoppedAt(i) then Finished(s, p, c, Err(Interrupted))
              else if w.lockFailsAt(i) then Finished(s, p, c, Err(Io))
              else if s.lock == None then Moved(s, p, Locked(c)).(lock := Some(p))
              else if i >= w.patience then Finished(s, p, c, Err(Busy))
              else s
  {
    hide Load, Apply, ValidChange, Moved;
  }

  lemma ReplaceStep(host: Host, s: System, p: ProcessId, c: Change, u: Update, w: Weather)
    requires p in s.stages && s.stages[p] == Decided(c, u)
    ensures Next(host, s, p, Replace(w.stoppedLast, w.outcome)) ==
              AfterReplace(host, s, p, c, u, Replace(w.stoppedLast, w.outcome))
  {
    hide Load, Apply, ValidChange, Moved, AfterReplace;
  }

  lemma SyncStep(host: Host, s: System, p: ProcessId, c: Change, u: Update, w: Weather)
    requires p in s.stages && s.stages[p] == Replaced(c, u)
    ensures Next(host, s, p, SyncDirectory(w.syncFails)) ==
              Finished(s, p, c, if w.syncFails then Err(Uncertain) else Ok(u))
  {
    hide Load, Apply, ValidChange, Moved, AfterReplace;
  }

  /** The directory of the registry, as every process sees it. */
  class Store {
    const host: Host
    const first: Option<Bytes>
    var file: Option<Bytes>
    var lock: Option<ProcessId>
    /** All steps of all processes so far. */
    var steps: seq<Step>

    constructor (host: Host, file: Option<Bytes>)
      ensures Valid() && this.host == host && first == file && steps == []
    {
      this.host, first, this.file, lock, steps := host, file, file, None, [];
    }

    function World(): System
      reads this
    {
      Run(host, first, steps)
    }

    /** File and lock are what the steps made of them. */
    predicate Valid()
      reads this
    {
      file == World().file && lock == World().lock
    }

    predicate At(p: ProcessId, stage: Stage)
      reads this
    {
      p in World().stages && World().stages[p] == stage && (Holding(stage) <==> lock == Some(p))
    }

    /** Between two steps of an update any others may take any steps of theirs. */
    method Others(p: ProcessId)
      requires Valid() && p in World().stages && At(p, World().stages[p])
      modifies this
      ensures Valid() && At(p, old(World()).stages[p])
      ensures old(steps) <= steps && Own(steps, p) == Own(old(steps), p)
    {
      hide Run, Next, Own;
      var more: seq<Step> := *;
      if forall i :: 0 <= i < |more| ==> more[i].process != p {
        OthersKeep(host, first, steps, more, p);
        steps := steps + more;
        file, lock := World().file, World().lock;
      }
    }

    /** Note a step whose effect on file and lock has just been made. */
    method Took(p: ProcessId, action: Action)
      requires var t := Next(host, World(), p, action); file == t.file && lock == t.lock
      modifies this`steps
      ensures Valid() && World() == Next(host, old(World()), p, action)
      ensures steps == old(steps) + [Step(p, action)] && Own(steps, p) == Own(old(steps), p) + [action]
    {
      hide Run, Next, Own;
      OneMore(host, first, steps, Step(p, action));
      steps := steps + [Step(p, action)];
    }

    /** Give the lock up and report. */
    method Finish(p: ProcessId, action: Action, change: Change, result: Result<Update, Error>)
      requires Valid()
      requires Next(host, World(), p, action) == Finished(World(), p, change, result)
      modifies this`steps, this`lock
      ensures Valid() && At(p, Done(change, result))
      ensures steps == old(steps) + [Step(p, action)] && Own(steps, p) == Own(old(steps), p) + [action]
    {
      hide Run, Next, Own;
      if lock == Some(p) {
        lock := None;
      }
      Took(p, action);
    }

    /** Check the change and the directory. */
    method Begin(p: ProcessId, change: Change, w: Weather) returns (error: Option<Error>)
      requires Valid() && p !in World().stages
      modifies this
      ensures Valid() && old(steps) <= steps
      ensures At(p, if error.Some? then Done(change, Err(error.value)) else Waiting(change))
      ensures Own(steps, p) == Own(old(steps), p) + First(change, w)
    {
      hide Run, Own, ValidChange;
      HolderIsUnderWay(host, first, steps);
      Took(p, Invoke(change));
      Others(p);
      var action := Check(w.stoppedFirst, w.setupFails);
      error := if w.stoppedFirst then Some(Interrupted)
               else if !ValidChange(host, change) then Some(Objection(change))
               else if w.setupFails then Some(Io)
               else None;
      if error.Some? {
        Finish(p, action, change, Err(error.value));
      } else {
        Took(p, action);
      }
    }

    /** One try for the lock. */
    method TryOnce(p: ProcessId, change: Change, w: Weather, i: nat) returns (error: Option<Error>, locked: bool)
      requires Valid() && At(p, Waiting(change))
      modifies this
      ensures Valid() && old(steps) <= steps && Own(steps, p) == Own(old(steps), p) + [Try(w, i)]
      ensures At(p, if locked then Locked(change)
                    else if error.Some? then Done(change, Err(error.value)) else Waiting(change))
      ensures locked ==> error == None
      ensures !locked && error == None ==> i < w.patience
    {
      hide Run, Own, Next;
      Others(p);
      TryStep(host, World(), p, change, w, i);
      locked := !w.stoppedAt(i) && !w.lockFailsAt(i) && lock == None;
      error := if locked then None
               else if w.stoppedAt(i) then Some(Interrupted)
               else if w.lockFailsAt(i) then Some(Io)
               else if i >= w.patience then Some(Busy)
               else None;
      if error.Some? {
        Finish(p, Try(w, i), change, Err(error.value));
        return;
      }
      if locked {
        lock := Some(p);
      }
      Took(p, Try(w, i));
    }

    /** Try to lock until the deadline. */
    method Acquire(p: ProcessId, change: Change, w: Weather) returns (error: Option<Error>, tries: nat)
      requires Valid() && At(p, Waiting(change))
      modifies this
      ensures Valid() && old(steps) <= steps && Own(steps, p) == Own(old(steps), p) + Tries(w, tries)
      ensures At(p, if error.Some? then Done(change, Err(error.value)) else Locked(change))
    {
      hide Run, Own, Valid, At;
      tries := 0;
      var locked := false;
      error := None;
      while !locked && error == None
        invariant Valid() && old(steps) <= steps && Own(steps, p) == Own(old(steps), p) + Tries(w, tries)
        invariant At(p, if locked then Locked(change)
                        else if error.Some? then Done(change, Err(error.value)) else Waiting(change))
        invariant locked ==> error == None
        invariant !locked && error == None ==> tries <= w.patience
        decreases !locked && error == None, w.patience - tries
      {
        ghost var own := Own(steps, p);
        error, locked := TryOnce(p, change, w, tries);
        assert Own(old(steps), p) + Tries(w, tries) + [Try(w, tries)] == Own(old(steps), p) + Tries(w, tries + 1);
        tries := tries + 1;
      }
    }

    /** Reload under the lock and change what was read. */
    method Change(p: ProcessId, change: Change, w: Weather) returns (result: Result<Update, Error>, ghost k: nat)
      requires Valid() && At(p, Locked(change))
      modifies this
      ensures Valid() && old(steps) <= steps
      ensures At(p, if result.Ok? then Decided(change, result.value) else Done(change, result))
      ensures result.Ok? ==> Tells(change, result.value)
      ensures k <= 2 && (result.Ok? ==> k == 2) && Own(steps, p) == Own(old(steps), p) + Last(w)[..k]
    {
      hide Run, Own, Load, Apply, Last, Effect, Tells;
      LastInOrder(Own(steps, p), w);
      Others(p);
      k := 1;
      var loaded := if w.readFails then Err(Io) else Load(host, file);
      if loaded.Err? {
        result := Err(loaded.error);
        Finish(p, Read(w.readFails), change, result);
        return;
      }
      Took(p, Read(w.readFails));
      Others(p);
      k := 2;
      result := Apply(loaded.value, change);
      ApplyExactly(loaded.value, change);
      if result.Err? {
        Finish(p, Action.Decide, change, result);
      } else {
        EffectTells(loaded.value, change, result.value);
        Took(p, Action.Decide);
      }
    }

    /** Replace the file within the size bound, and report what cannot be known as uncertain. */
    method Publish(p: ProcessId, change: Change, update: Update, w: Weather) returns (error: Option<Error>)
      requires Valid() && At(p, Decided(change, update)) && update.changed && !w.stoppedLast
      modifies this
      ensures Valid() && old(steps) <= steps
      ensures At(p, Done(change, if error.Some? then Err(error.value) else Ok(update)))
      ensures error == if !Publishable(host, update.state) then Some(InvalidState)
                       else if w.outcome.FailedBefore? then Some(Io)
                       else if w.outcome.RenameError? || w.syncFails then Some(Uncertain) else None
      ensures Own(steps, p) == Own(old(steps), p) + [Replace(false, w.outcome)]
              || Own(steps, p) == Own(old(steps), p) + [Replace(false, w.outcome), SyncDirectory(w.syncFails)]
    {
      hide Run, Own, Next;
      ReplaceStep(host, World(), p, change, update, w);
      var action := Replace(false, w.outcome);
      var bytes := host.encode(update.state);
      if |bytes| >= LIMIT || w.outcome.FailedBefore? {
        error := Some(if |bytes| >= LIMIT then InvalidState else Io);
        Finish(p, action, change, Err(error.value));
        return;
      }
      if w.outcome == Renamed || w.outcome.replaced {
        file := Some(bytes + [NEWLINE]);
      }
      if w.outcome.RenameError? {
        lock := None;
        Took(p, action);
        return Some(Uncertain);
      }
      Took(p, action);
      Others(p);
      SyncStep(host, World(), p, change, update, w);
      error := if w.syncFails then Some(Uncertain) else None;
      Finish(p, SyncDirectory(w.syncFails), change, if error.Some? then Err(error.value) else Ok(update));
    }

    /** Stop, leave an unchanged registry alone, or publish the changed one. */
    method Conclude(p: ProcessId, change: Change, update: Update, w: Weather) returns (result: Result<Update, Error>)
      requires Valid() && At(p, Decided(change, update))
      modifies this
      ensures Valid() && old(steps) <= steps && At(p, Done(change, result)) && (result.Ok? ==> result.value == update)
      ensures Own(steps, p) == Own(old(steps), p) + [Replace(w.stoppedLast, w.outcome)]
              || Own(steps, p) == Own(old(steps), p) + [Replace(w.stoppedLast, w.outcome), SyncDirectory(w.syncFails)]
    {
      hide Run, Own, Next;
      Others(p);
      ReplaceStep(host, World(), p, change, update, w);
      if w.stoppedLast {
        result := Err(Interrupted);
        Finish(p, Replace(true, w.outcome), change, result);
      } else if !update.changed {
        result := Ok(update);
        Finish(p, Replace(false, w.outcome), change, result);
      } else {
        var error := Publish(p, change, update, w);
        result := if error.Some? then Err(error.value) else Ok(update);
      }
    }

    /** Lock, reload, change, and replace, while others do the same. */
    method Update(p: ProcessId, change: Change, w: Weather) returns (result: Result<Update, Error>, ghost tries: nat)
      requires Valid() && p !in World().stages
      modifies this
      ensures Valid() && old(steps) <= steps && At(p, Done(change, result))
      ensures Follows(Own(old(steps), p), Own(steps, p), change, w, tries)
      ensures Faithful(host) && Load(host, first).Ok? ==>
                Linearized(World(), Load(host, first).value, p, change, result)
      ensures result.Ok? ==> Tells(change, result.value)
    {
      hide Tells, Follows;
      result, tries := Steps(p, change, w);
      if Faithful(host) && Load(host, first).Ok? {
        UpdatesAreLinearized(host, first, steps, Load(host, first).value, p);
      }
    }

    method Steps(p: ProcessId, change: Change, w: Weather) returns (result: Result<Update, Error>, ghost tries: nat)
      requires Valid() && p !in World().stages
      modifies this
      ensures Valid() && old(steps) <= steps && At(p, Done(change, result))
      ensures Follows(Own(old(steps), p), Own(steps, p), change, w, tries)
      ensures result.Ok? ==> Tells(change, result.value)
    {
      hide Run, Own, Follows, Tries, First, Last, Script, Valid, At, Next, Tells;
      ghost var own := Own(steps, p);
      tries := 0;
      var error := Begin(p, change, w);
      FollowsStart(own, change, w);
      if error.Some? {
        return Err(error.value), 0;
      }
      error, tries := Acquire(p, change, w);
      FollowsTries(own, change, w, tries);
      if error.Some? {
        return Err(error.value), tries;
      }
      ghost var k;
      LastInOrder(Own(steps, p), w);
      result, k := Change(p, change, w);
      FollowsFurther(own, change, w, tries, k);
      if result.Err? {
        return;
      }
      FollowsFurther(own, change, w, tries, 3);
      FollowsFurther(own, change, w, tries, 4);
      result := Conclude(p, change, result.value, w);
    }
  }

  /** A success took effect at one moment since the start; an error that is certain means that nothing was replaced. */
  ghost predicate Linearized(s: System, base: State, p: ProcessId, change: Change, result: Result<Update, Error>) {
    match result
    case Ok(update) => Answers(s, base, p, change, update)
    case Err(error) =>
      && (error != Uncertain ==> !Committed(s.commits, p))
      && (error in {Conflict, NotFound} ==> Declines(s, base, p, change, error))
  }

  /** The process added a beginning of the script, and nothing else, to its own steps. */
  ghost predicate Follows(before: seq<Action>, now: seq<Action>, c: Change, w: Weather, tries: nat) {
    exists k: nat :: k <= |Script(c, w, tries)| && now == before + Script(c, w, tries)[..k]
  }

  lemma FollowsStart(own: seq<Action>, c: Change, w: Weather)
    ensures Follows(own, own + First(c, w), c, w, 0)
  {
    assert Script(c, w, 0)[..2] == First(c, w);
  }

  lemma FollowsFurther(own: seq<Action>, c: Change, w: Weather, tries: nat, k: nat)
    requires k <= 4
    ensures Follows(own, own + First(c, w) + Tries(w, tries) + Last(w)[..k], c, w, tries)
  {
    var head := First(c, w) + Tries(w, tries);
    assert Script(c, w, tries)[..|head| + k] == head + Last(w)[..k];
    assert own + (head + Last(w)[..k]) == own + First(c, w) + Tries(w, tries) + Last(w)[..k];
  }

  lemma FollowsTries(own: seq<Action>, c: Change, w: Weather, tries: nat)
    ensures Follows(own, own + First(c, w) + Tries(w, tries), c, w, tries)
  {
    FollowsFurther(own, c, w, tries, 0);
    var now := own + First(c, w) + Tries(w, tries);
    assert now + Last(w)[..0] == now;
  }

  lemma LastInOrder(now: seq<Action>, w: Weather)
    ensures now + [Read(w.readFails)] == now + Last(w)[..1]
    ensures now + Last(w)[..1] + [Decide] == now + Last(w)[..2]
    ensures now + Last(w)[..2] + [Replace(w.stoppedLast, w.outcome)] == now + Last(w)[..3]
    ensures now + Last(w)[..2] + [Replace(w.stoppedLast, w.outcome), SyncDirectory(w.syncFails)] == now + Last(w)[..4]
  {
  }
}
