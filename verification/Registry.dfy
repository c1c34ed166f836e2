/** The target registry: a file that many processes update under a lock and any process reads without it. */
module Registry {
  import opened Text

  type Bytes = seq<bv8>

  const LIMIT := 4 * 1024 * 1024
  const NEWLINE: bv8 := 10

  datatype Result<+T, +E> = Ok(value: T) | Err(error: E)

  datatype Error =
    | InvalidLabel | InvalidTarget | InvalidState | Io | Busy | Conflict | NotFound | Interrupted | Uncertain

  /** `details` stands for the discovery and transport facts, which the registry stores and never interprets. */
  datatype Target = Target(name: string, clientId: string, details: string)

  datatype State = State(schema: int, selected: Option<string>, targets: map<string, Target>)

  const EMPTY := State(1, None, map[])

  datatype Change = Register(target: Target) | Select(name: string)

  datatype Update = Update(state: State, changed: bool, previous: Option<string>)

  /** The JSON encoding and the identity and transport checks, which belong to other code. */
  datatype Host = Host(encode: State -> Bytes, decode: Bytes -> Option<State>, trusts: string -> bool)

  /** Decoding undoes encoding, also past the newline that ends the file. */
  ghost predicate Faithful(host: Host) {
    forall s :: host.decode(host.encode(s) + [NEWLINE]) == Some(s)
  }

  // ---------------------------------------------------------------- validation

  predicate IsAlphanumeric(c: char) {
    '0' <= c <= '9' || 'a' <= c <= 'z' || 'A' <= c <= 'Z'
  }

  predicate IsLabel(name: string) {
    && 0 < |name| <= 64
    && IsAlphanumeric(name[0])
    && forall i :: 0 <= i < |name| ==> IsAlphanumeric(name[i]) || name[i] in "._-"
  }

  predicate ValidTarget(host: Host, t: Target) {
    IsLabel(t.name) && t.clientId == "inframeld-cli" && host.trusts(t.details)
  }

  predicate ValidState(host: Host, s: State) {
    && s.schema == 1
    && (s.selected.Some? ==> s.selected.value in s.targets)
    && forall name :: name in s.targets ==> s.targets[name].name == name && ValidTarget(host, s.targets[name])
  }

  predicate ValidChange(host: Host, c: Change) {
    match c
    case Register(t) => ValidTarget(host, t)
    case Select(name) => IsLabel(name)
  }

  /** What is said of an invalid change; InvalidTarget stands for the errors of the identity and transport checks. */
  function Objection(c: Change): Error {
    match c
    case Select(_) => InvalidLabel
    case Register(t) =>
      if !IsLabel(t.name) then InvalidLabel else if t.clientId != "inframeld-cli" then InvalidState else InvalidTarget
  }

  // ---------------------------------------------------------------- one update

  /** Reading the file: its absence is the empty registry, anything over the limit or malformed is refused. */
  function Load(host: Host, file: Option<Bytes>): Result<State, Error> {
    match file
    case None => Ok(EMPTY)
    case Some(bytes) =>
      if |bytes| > LIMIT then Err(InvalidState)
      else
        match host.decode(bytes)
        case None => Err(InvalidState)
        case Some(s) => if ValidState(host, s) then Ok(s) else Err(InvalidState)
  }

  function Apply(s: State, c: Change): Result<Update, Error> {
    match c
    case Register(t) =>
      if t.name !in s.targets then Ok(Update(s.(targets := s.targets[t.name := t]), true, s.selected))
      else if s.targets[t.name] == t then Ok(Update(s, false, s.selected))
      else Err(Conflict)
    case Select(name) =>
      if name !in s.targets then Err(NotFound)
      else Ok(Update(s.(selected := Some(name)), s.selected != Some(name), s.selected))
  }

  function Publishable(host: Host, s: State): bool {
    |host.encode(s)| < LIMIT
  }

  function Published(host: Host, s: State): Bytes {
    host.encode(s) + [NEWLINE]
  }

  /** What a change that succeeds does to the registry it finds, and what it reports. */
  ghost predicate Effect(before: State, c: Change, u: Update) {
    && u.previous == before.selected && u.state.schema == before.schema
    && match c
       case Select(name) =>
         && name in before.targets
         && u.state.selected == Some(name) && u.state.targets == before.targets
         && (u.changed <==> before.selected != Some(name))
       case Register(t) =>
         && (t.name in before.targets ==> before.targets[t.name] == t)
         && u.state.selected == before.selected
         && u.state.targets.Keys == before.targets.Keys + {t.name} && u.state.targets[t.name] == t
         && (forall name :: name in before.targets ==> u.state.targets[name] == before.targets[name])
         && (u.changed <==> t.name !in before.targets)
  }

  /** A change succeeds with exactly this effect; it fails only on a label that is not there, or bound otherwise. */
  lemma ApplyExactly(s: State, c: Change)
    ensures match Apply(s, c)
            case Ok(u) => Effect(s, c, u)
            case Err(NotFound) => c.Select? && c.name !in s.targets
            case Err(Conflict) => c.Register? && c.target.name in s.targets && s.targets[c.target.name] != c.target
            case Err(_) => false
  {
  }

  /** A label: 1 to 64 characters, a letter or digit first, then letters, digits, dots, dashes and underscores. */
  lemma LabelExactly(name: string)
    ensures IsLabel(name) <==>
              && 1 <= |name| <= 64
              && (forall i :: 0 <= i < |name| ==>
                    || 'a' <= name[i] <= 'z' || 'A' <= name[i] <= 'Z' || '0' <= name[i] <= '9'
                    || (i > 0 && (name[i] == '.' || name[i] == '_' || name[i] == '-')))
  {
  }

  /** A registry is valid exactly if it has this form. */
  lemma RegistryExactly(host: Host, s: State)
    ensures ValidState(host, s) <==>
              && s.schema == 1
              && (match s.selected case None => true case Some(name) => name in s.targets)
              && forall name :: name in s.targets ==>
                   var t := s.targets[name];
                   t.name == name && IsLabel(t.name) && t.clientId == "inframeld-cli" && host.trusts(t.details)
  {
    hide IsLabel;
  }

  /** Reading gives a registry exactly if there is no file, or a valid one of at most 4 MiB. */
  lemma LoadExactly(host: Host, file: Option<Bytes>, s: State)
    ensures Load(host, file) == Ok(s) <==>
              match file
              case None => s == State(1, None, map[])
              case Some(bytes) => |bytes| <= 4_194_304 && host.decode(bytes) == Some(s) && ValidState(host, s)
    ensures Load(host, file).Err? ==> Load(host, file) == Err(InvalidState)
  {
    hide ValidState;
  }

  /** Registering and selecting keep a registry valid. */
  lemma ApplyKeepsValid(host: Host, s: State, c: Change)
    requires ValidState(host, s) && ValidChange(host, c)
    ensures Apply(s, c).Ok? ==> ValidState(host, Apply(s, c).value.state)
  {
  }

  /** Bindings are only ever added: no change rebinds or drops a name. */
  lemma ApplyKeepsBindings(s: State, c: Change)
    requires Apply(s, c).Ok?
    ensures forall name :: name in s.targets ==>
              && name in Apply(s, c).value.state.targets
              && Apply(s, c).value.state.targets[name] == s.targets[name]
    ensures !Apply(s, c).value.changed ==> Apply(s, c).value.state == s
  {
  }

  /** What a valid update publishes is read back as the same valid registry; the size bounds meet exactly. */
  lemma PublishedLoads(host: Host, s: State)
    requires Faithful(host) && ValidState(host, s)
    ensures Publishable(host, s) <==> |Published(host, s)| <= LIMIT
    ensures Publishable(host, s) ==> Load(host, Some(Published(host, s))) == Ok(s)
    ensures !Publishable(host, s) ==> Load(host, Some(Published(host, s))) == Err(InvalidState)
  {
    assert host.decode(host.encode(s) + [NEWLINE]) == Some(s);
  }

  // ---------------------------------------------------------------- many processes

  type ProcessId = nat

  /** How far one invocation of `update` has come. */
  datatype Stage =
    | Started(change: Change)
    | Waiting(change: Change)
    | Locked(change: Change)
    | Loaded(change: Change, state: State)
    | Decided(change: Change, update: Update)
    | Replaced(change: Change, update: Update)
    | Done(change: Change, result: Result<Update, Error>)
    | Crashed(change: Change)

  datatype Commit = Commit(process: ProcessId, change: Change)

  /** History variables: the replacements of the file, and how many there were when each process started. */
  datatype System = System(file: Option<Bytes>, lock: Option<ProcessId>, stages: map<ProcessId, Stage>,
                           commits: seq<Commit>, since: map<ProcessId, nat>)

  /** A rename that reports an error may or may not have taken effect. */
  datatype Outcome = FailedBefore | RenameError(replaced: bool) | Renamed

  /** What the environment decides about one step: failures, interruption, time and crashes. */
  datatype Action =
    | Invoke(change: Change)
    | Check(stopped: bool, failed: bool)
    | TryLock(stopped: bool, failed: bool, late: bool)
    | Read(failed: bool)
    | Decide
    | Replace(stopped: bool, outcome: Outcome)
    | SyncDirectory(failed: bool)
    | Crash

  predicate Holding(stage: Stage) {
    stage.Locked? || stage.Loaded? || stage.Decided? || stage.Replaced?
  }

  function Moved(s: System, p: ProcessId, stage: Stage): System {
    s.(stages := s.stages[p := stage],
       lock := if s.lock == Some(p) && !Holding(stage) then None else s.lock)
  }

  function Finished(s: System, p: ProcessId, change: Change, result: Result<Update, Error>): System {
    Moved(s, p, Done(change, result))
  }

  /** The file after an atomic replacement by process p. */
  function Written(host: Host, s: System, p: ProcessId, change: Change, update: Update): System {
    s.(file := Some(Published(host, update.state)), commits := s.commits + [Commit(p, change)])
  }

  /** Replace the file, unless nothing changed or something fails first. */
  function AfterReplace(host: Host, s: System, p: ProcessId, c: Change, u: Update, action: Action): System
    requires action.Replace?
  {
    if action.stopped then Finished(s, p, c, Err(Interrupted))
    else if !u.changed then Finished(s, p, c, Ok(u))
    else if !Publishable(host, u.state) then Finished(s, p, c, Err(InvalidState))
    else
      match action.outcome
      case FailedBefore => Finished(s, p, c, Err(Io))
      case RenameError(false) => Finished(s, p, c, Err(Uncertain))
      case RenameError(true) => Finished(Written(host, s, p, c, u), p, c, Err(Uncertain))
      case Renamed => Moved(Written(host, s, p, c, u), p, Replaced(c, u))
  }

  /** One step of process p; an action that does not fit its stage changes nothing. */
  function Next(host: Host, s: System, p: ProcessId, action: Action): System {
    if p !in s.stages then
      if action.Invoke? then s.(stages := s.stages[p := Started(action.change)], since := s.since[p := |s.commits|])
      else s
    else
      match (s.stages[p], action)
      case (Done(_, _), _) => s
      case (Crashed(_), _) => s
      case (stage, Crash) => Moved(s, p, Crashed(stage.change))
      case (Started(c), Check(stopped, failed)) =>
        if stopped then Finished(s, p, c, Err(Interrupted))
        else if !ValidChange(host, c) then Finished(s, p, c, Err(Objection(c)))
        else if failed then Finished(s, p, c, Err(Io))
        else Moved(s, p, Waiting(c))
      case (Waiting(c), TryLock(stopped, failed, late)) =>
        if stopped then Finished(s, p, c, Err(Interrupted))
        else if failed then Finished(s, p, c, Err(Io))
        else if s.lock == None then Moved(s, p, Locked(c)).(lock := Some(p))
        else if late then Finished(s, p, c, Err(Busy))
        else s
      case (Locked(c), Read(failed)) =>
        if failed then Finished(s, p, c, Err(Io))
        else
          (match Load(host, s.file)
           case Ok(state) => Moved(s, p, Loaded(c, state))
           case Err(e) => Finished(s, p, c, Err(e)))
      case (Loaded(c, state), Decide) =>
        (match Apply(state, c)
         case Ok(update) => Moved(s, p, Decided(c, update))
         case Err(e) => Finished(s, p, c, Err(e)))
      case (Decided(c, update), Replace(_, _)) => AfterReplace(host, s, p, c, update, action)
      case (Replaced(c, update), SyncDirectory(failed)) =>
        Finished(s, p, c, if failed then Err(Uncertain) else Ok(update))
      case _ => s
  }

  /** Why a step of an update that stands at this stage ends it with this error. */
  ghost predicate Fails(host: Host, s: System, stage: Stage, action: Action, e: Error) {
    match e
    case Interrupted =>
      || (stage.Started? && action.Check? && action.stopped) || (stage.Waiting? && action.TryLock? && action.stopped)
      || (stage.Decided? && action.Replace? && action.stopped)
    case InvalidLabel =>
      && stage.Started? && action.Check? && !action.stopped
      && !IsLabel(match stage.change case Select(name) => name case Register(t) => t.name)
    case InvalidTarget =>
      && stage.Started? && action.Check? && !action.stopped && stage.change.Register?
      && IsLabel(stage.change.target.name) && stage.change.target.clientId == "inframeld-cli"
      && !host.trusts(stage.change.target.details)
    case Busy => stage.Waiting? && action == TryLock(false, false, true) && s.lock.Some?
    case Conflict =>
      && stage.Loaded? && action.Decide? && stage.change.Register? && stage.change.target.name in stage.state.targets
      && stage.state.targets[stage.change.target.name] != stage.change.target
    case NotFound =>
      stage.Loaded? && action.Decide? && stage.change.Select? && stage.change.name !in stage.state.targets
    case InvalidState =>
      || (stage.Started? && action.Check? && !action.stopped && stage.change.Register?
          && IsLabel(stage.change.target.name) && stage.change.target.clientId != "inframeld-cli")
      || (stage.Locked? && action == Read(false) && forall r :: Load(host, s.file) != Ok(r))
      || (stage.Decided? && action.Replace? && !action.stopped && stage.update.changed
          && |host.encode(stage.update.state)| >= 4_194_304)
    case Io =>
      || (stage.Started? && action == Check(false, true) && ValidChange(host, stage.change))
      || (stage.Waiting? && action.TryLock? && !action.stopped && action.failed)
      || (stage.Locked? && action == Read(true))
      || (stage.Decided? && action == Replace(false, FailedBefore) && stage.update.changed
          && |host.encode(stage.update.state)| < 4_194_304)
    case Uncertain =>
      || (stage.Replaced? && action == SyncDirectory(true))
      || (stage.Decided? && action.Replace? && !action.stopped && action.outcome.RenameError? && stage.update.changed
          && |host.encode(stage.update.state)| < 4_194_304)
  }

  /** The step ends the update with an error exactly for the cause that belongs to it, and with success exactly once
      its file is in place and synchronized, or right away if nothing had to change. */
  ghost predicate EndsRightly(host: Host, s: System, p: ProcessId, action: Action)
    requires p in s.stages && !s.stages[p].Done? && !s.stages[p].Crashed?
  {
    var stage, next := s.stages[p], Next(host, s, p, action).stages[p];
    && next.change == stage.change
    && (forall e :: next == Done(stage.change, Err(e)) <==> Fails(host, s, stage, action, e))
    && forall u :: next == Done(stage.change, Ok(u)) <==>
         || (stage.Replaced? && action == SyncDirectory(false) && u == stage.update)
         || (stage.Decided? && action.Replace? && !action.stopped && u == stage.update && !u.changed)
  }

  lemma EarlyStepsEndRightly(host: Host, s: System, p: ProcessId, action: Action)
    requires p in s.stages && (s.stages[p].Started? || s.stages[p].Waiting? || s.stages[p].Locked?)
    ensures EndsRightly(host, s, p, action)
  {
    hide IsLabel, ValidState;
  }

  lemma DecidingEndsRightly(host: Host, s: System, p: ProcessId, action: Action)
    requires p in s.stages && s.stages[p].Loaded?
    ensures EndsRightly(host, s, p, action)
  {
    hide IsLabel, Load;
  }

  lemma ReplacingEndsRightly(host: Host, s: System, p: ProcessId, action: Action)
    requires p in s.stages && (s.stages[p].Decided? || s.stages[p].Replaced?)
    ensures EndsRightly(host, s, p, action)
  {
    hide IsLabel, Load, Apply;
  }

  /** Every step of an update under way ends it rightly, or leaves it under way. */
  lemma StepEndsExactly(host: Host, s: System, p: ProcessId, action: Action)
    requires p in s.stages && !s.stages[p].Done? && !s.stages[p].Crashed?
    ensures EndsRightly(host, s, p, action)
  {
    hide EndsRightly;
    match s.stages[p]
    case Loaded(_, _) => DecidingEndsRightly(host, s, p, action);
    case Decided(_, _) => ReplacingEndsRightly(host, s, p, action);
    case Replaced(_, _) => ReplacingEndsRightly(host, s, p, action);
    case _ => EarlyStepsEndRightly(host, s, p, action);
  }

  // ---------------------------------------------------------------- runs

  datatype Step = Step(process: ProcessId, action: Action)

  /** The system after any interleaving of steps, starting with no process and whatever file there is. */
  function Run(host: Host, file: Option<Bytes>, steps: seq<Step>): System {
    if steps == [] then System(file, None, map[], [], map[])
    else
      var last := steps[|steps| - 1];
      Next(host, Run(host, file, steps[..|steps| - 1]), last.process, last.action)
  }

  /** The registry that the committed changes make of the first one, each applied to what the last one left. */
  function After(base: State, commits: seq<Commit>): State {
    if commits == [] then base
    else
      var before := After(base, commits[..|commits| - 1]);
      var applied := Apply(before, commits[|commits| - 1].change);
      if applied.Ok? then applied.value.state else before
  }

  ghost predicate Committed(commits: seq<Commit>, p: ProcessId) {
    exists i :: 0 <= i < |commits| && commits[i].process == p
  }

  /** At some point since p started, its change gave this update; if anything changed, that point is its own commit. */
  ghost predicate Answers(s: System, base: State, p: ProcessId, c: Change, u: Update) {
    && p in s.since
    && exists i :: s.since[p] <= i <= |s.commits| && AnswersAt(s.commits, i, base, p, c, u)
  }

  ghost predicate AnswersAt(commits: seq<Commit>, i: nat, base: State, p: ProcessId, c: Change, u: Update)
    requires i <= |commits|
  {
    && Apply(After(base, commits[..i]), c) == Ok(u)
    && (if u.changed then i < |commits| && commits[i] == Commit(p, c) else !Committed(commits, p))
  }

  /** At some point since p started, its change was impossible. */
  ghost predicate Declines(s: System, base: State, p: ProcessId, c: Change, e: Error) {
    && p in s.since
    && exists i :: s.since[p] <= i <= |s.commits| && DeclinesAt(s.commits, i, base, c, e)
  }

  ghost predicate DeclinesAt(commits: seq<Commit>, i: nat, base: State, c: Change, e: Error)
    requires i <= |commits|
  {
    Apply(After(base, commits[..i]), c) == Err(e)
  }

  /** What each stage knows about the file and the commits. */
  ghost predicate StageOk(host: Host, s: System, base: State, p: ProcessId)
    requires p in s.stages
  {
    match s.stages[p]
    case Started(c) => !Committed(s.commits, p)
    case Waiting(c) => ValidChange(host, c) && !Committed(s.commits, p)
    case Locked(c) => ValidChange(host, c) && !Committed(s.commits, p)
    case Loaded(c, state) => ValidChange(host, c) && !Committed(s.commits, p) && state == After(base, s.commits)
    case Decided(c, u) =>
      ValidChange(host, c) && !Committed(s.commits, p) && Apply(After(base, s.commits), c) == Ok(u)
    case Replaced(c, u) => u.changed && Answers(s, base, p, c, u)
    case Done(c, Ok(u)) => Answers(s, base, p, c, u)
    case Done(c, Err(e)) =>
      && (e == Uncertain || !Committed(s.commits, p))
      && (e == Conflict || e == NotFound ==> Declines(s, base, p, c, e))
    case Crashed(c) => true
  }

  ghost predicate LockOk(s: System) {
    && (forall p :: p in s.stages && Holding(s.stages[p]) ==> s.lock == Some(p))
    && (s.lock.Some? ==> s.lock.value in s.stages && Holding(s.stages[s.lock.value]))
  }

  ghost predicate CommitsOk(s: System) {
    && s.since.Keys == s.stages.Keys
    && (forall p :: p in s.since ==> s.since[p] <= |s.commits|)
    && (forall i :: 0 <= i < |s.commits| ==> s.commits[i].process in s.stages && s.since[s.commits[i].process] <= i)
    && (forall i, j :: 0 <= i < j < |s.commits| ==> s.commits[i].process != s.commits[j].process)
  }

  /** The file is what the commits made of the first file. */
  ghost predicate FileOk(host: Host, file: Option<Bytes>, s: System, base: State) {
    && ValidState(host, After(base, s.commits))
    && (s.commits == [] ==> s.file == file)
    && (s.commits != [] ==>
          Publishable(host, After(base, s.commits)) && s.file == Some(Published(host, After(base, s.commits))))
  }

  ghost predicate Inv(host: Host, file: Option<Bytes>, s: System, base: State) {
    && LockOk(s) && CommitsOk(s) && FileOk(host, file, s, base)
    && forall p :: p in s.stages ==> StageOk(host, s, base, p)
  }

  lemma CurrentLoads(host: Host, file: Option<Bytes>, s: System, base: State)
    requires Faithful(host) && Load(host, file) == Ok(base) && FileOk(host, file, s, base)
    ensures Load(host, s.file) == Ok(After(base, s.commits))
  {
    if s.commits != [] {
      PublishedLoads(host, After(base, s.commits));
    }
  }

  // ---------------------------------------------------------------- every step keeps the invariant

  /** A step that leaves the file alone needs only its own new stage to be justified. */
  lemma MovedKeeps(host: Host, file: Option<Bytes>, s: System, base: State, p: ProcessId, stage: Stage)
    requires Inv(host, file, s, base) && p in s.stages
    requires Holding(stage) ==> s.lock == Some(p)
    requires StageOk(host, Moved(s, p, stage), base, p)
    ensures Inv(host, file, Moved(s, p, stage), base)
  {
    var t := Moved(s, p, stage);
    forall q | q in t.stages && q != p
      ensures StageOk(host, t, base, q)
    {
      assert StageOk(host, s, base, q);
      assert t.stages[q] == s.stages[q];
    }
  }

  lemma CommittedAfter(commits: seq<Commit>, c: Commit, q: ProcessId)
    ensures Committed(commits + [c], q) <==> Committed(commits, q) || c.process == q
  {
    var longer := commits + [c];
    if Committed(commits, q) {
      var i :| 0 <= i < |commits| && commits[i].process == q;
      assert longer[i].process == q;
    }
    if c.process == q {
      assert longer[|commits|].process == q;
    }
  }

  lemma AnswersAfter(s: System, t: System, base: State, p: ProcessId, q: ProcessId, c: Change, d: Change, u: Update)
    requires q != p && Answers(s, base, q, d, u)
    requires t.commits == s.commits + [Commit(p, c)] && t.since == s.since
    ensures Answers(t, base, q, d, u)
  {
    var i :| s.since[q] <= i <= |s.commits| && AnswersAt(s.commits, i, base, q, d, u);
    assert t.commits[..i] == s.commits[..i];
    CommittedAfter(s.commits, Commit(p, c), q);
    assert AnswersAt(t.commits, i, base, q, d, u);
  }

  lemma DeclinesAfter(s: System, t: System, base: State, q: ProcessId, d: Change, e: Error)
    requires Declines(s, base, q, d, e) && s.commits <= t.commits && t.since == s.since
    ensures Declines(t, base, q, d, e)
  {
    var i :| s.since[q] <= i <= |s.commits| && DeclinesAt(s.commits, i, base, d, e);
    assert t.commits[..i] == s.commits[..i];
    assert DeclinesAt(t.commits, i, base, d, e);
  }

  /** The replaced file holds what the commits, with the new one, make of the first file. */
  lemma WrittenIsOk(host: Host, file: Option<Bytes>, s: System, base: State, p: ProcessId, c: Change, u: Update,
                    stage: Stage)
    requires FileOk(host, file, s, base) && ValidChange(host, c) && Apply(After(base, s.commits), c) == Ok(u)
    requires Publishable(host, u.state)
    ensures FileOk(host, file, Moved(Written(host, s, p, c, u), p, stage), base)
  {
    hide Apply, ValidState, ValidChange, Publishable, Published;
    var t := Written(host, s, p, c, u);
    ApplyKeepsValid(host, After(base, s.commits), c);
    assert t.commits[..|s.commits|] == s.commits;
  }

  lemma StartedBefore(s: System, p: ProcessId)
    requires CommitsOk(s) && p in s.stages
    ensures p in s.since && s.since[p] <= |s.commits|
  {
  }

  /** A process that has not committed before may be the next one to do so. */
  lemma OneMoreCommit(s: System, t: System, p: ProcessId, c: Change)
    requires CommitsOk(s) && p in s.stages && !Committed(s.commits, p)
    requires t.stages.Keys == s.stages.Keys && t.since == s.since && t.commits == s.commits + [Commit(p, c)]
    ensures CommitsOk(t)
  {
    forall i | 0 <= i < |s.commits|
      ensures t.commits[i] == s.commits[i] && t.commits[i].process != p
    {
      assert !Committed(s.commits, p);
    }
  }

  /** The replacing step appends one commit, whose effect is the file's new content. */
  lemma CommitKeeps(host: Host, file: Option<Bytes>, s: System, base: State, p: ProcessId, c: Change, u: Update,
                    stage: Stage)
    requires Inv(host, file, s, base) && p in s.stages && s.stages[p] == Decided(c, u)
    requires u.changed && Publishable(host, u.state)
    requires stage == Replaced(c, u) || stage == Done(c, Err(Uncertain))
    ensures Inv(host, file, Moved(Written(host, s, p, c, u), p, stage), base)
  {
    hide Apply, ValidState, ValidChange, Publishable, Published, After, FileOk, CommitsOk;
    var t := Moved(Written(host, s, p, c, u), p, stage);
    assert StageOk(host, s, base, p);
    WrittenIsOk(host, file, s, base, p, c, u, stage);
    OneMoreCommit(s, t, p, c);
    StartedBefore(s, p);
    assert t.commits[..|s.commits|] == s.commits;
    assert AnswersAt(t.commits, |s.commits|, base, p, c, u);
    assert StageOk(host, t, base, p);
    forall q | q in t.stages && q != p
      ensures StageOk(host, t, base, q)
    {
      OthersKept(host, s, t, base, p, q, c);
    }
  }

  lemma OthersKept(host: Host, s: System, t: System, base: State, p: ProcessId, q: ProcessId, c: Change)
    requires q != p && q in s.stages && q in t.stages && t.stages[q] == s.stages[q]
    requires LockOk(s) && s.lock == Some(p) && StageOk(host, s, base, q)
    requires t.commits == s.commits + [Commit(p, c)] && t.since == s.since
    ensures StageOk(host, t, base, q)
  {
    CommittedAfter(s.commits, Commit(p, c), q);
    assert !Holding(s.stages[q]);
    match s.stages[q]
    case Done(d, Ok(v)) => AnswersAfter(s, t, base, p, q, c, d, v);
    case Done(d, Err(e)) =>
      if e == Conflict || e == NotFound {
        DeclinesAfter(s, t, base, q, d, e);
      }
    case _ =>
  }

  lemma ReplaceKeeps(host: Host, file: Option<Bytes>, s: System, base: State, p: ProcessId, c: Change, u: Update,
                     action: Action)
    requires Inv(host, file, s, base) && p in s.stages && s.stages[p] == Decided(c, u) && action.Replace?
    ensures Inv(host, file, AfterReplace(host, s, p, c, u, action), base)
  {
    assert StageOk(host, s, base, p);
    if action.stopped {
      MovedKeeps(host, file, s, base, p, Done(c, Err(Interrupted)));
    } else if !u.changed {
      var t := Finished(s, p, c, Ok(u));
      assert t.commits[..|t.commits|] == t.commits;
      assert AnswersAt(t.commits, |t.commits|, base, p, c, u);
      MovedKeeps(host, file, s, base, p, Done(c, Ok(u)));
    } else if !Publishable(host, u.state) {
      MovedKeeps(host, file, s, base, p, Done(c, Err(InvalidState)));
    } else {
      match action.outcome
      case FailedBefore => MovedKeeps(host, file, s, base, p, Done(c, Err(Io)));
      case RenameError(false) => MovedKeeps(host, file, s, base, p, Done(c, Err(Uncertain)));
      case RenameError(true) => CommitKeeps(host, file, s, base, p, c, u, Done(c, Err(Uncertain)));
      case Renamed => CommitKeeps(host, file, s, base, p, c, u, Replaced(c, u));
    }
  }

  lemma InvokeKeeps(host: Host, file: Option<Bytes>, s: System, base: State, p: ProcessId, c: Change)
    requires Inv(host, file, s, base) && p !in s.stages
    ensures Inv(host, file, s.(stages := s.stages[p := Started(c)], since := s.since[p := |s.commits|]), base)
  {
    var t := s.(stages := s.stages[p := Started(c)], since := s.since[p := |s.commits|]);
    forall q | q in t.stages
      ensures StageOk(host, t, base, q)
    {
      if q != p {
        assert StageOk(host, s, base, q);
      }
    }
  }

  lemma LockKeeps(host: Host, file: Option<Bytes>, s: System, base: State, p: ProcessId, c: Change)
    requires Inv(host, file, s, base) && p in s.stages && s.stages[p] == Waiting(c) && s.lock == None
    ensures Inv(host, file, Moved(s, p, Locked(c)).(lock := Some(p)), base)
  {
    var t := Moved(s, p, Locked(c)).(lock := Some(p));
    forall q | q in t.stages
      ensures StageOk(host, t, base, q)
    {
      assert StageOk(host, s, base, q);
    }
  }

  lemma NextKeeps(host: Host, file: Option<Bytes>, s: System, base: State, p: ProcessId, action: Action)
    requires Faithful(host) && Load(host, file) == Ok(base) && Inv(host, file, s, base)
    ensures Inv(host, file, Next(host, s, p, action), base)
  {
    hide Inv;
    var t := Next(host, s, p, action);
    if p !in s.stages {
      if action.Invoke? {
        InvokeKeeps(host, file, s, base, p, action.change);
      }
    } else {
      StepKeeps(host, file, s, base, p, action);
    }
  }

  lemma StepKeeps(host: Host, file: Option<Bytes>, s: System, base: State, p: ProcessId, action: Action)
    requires Faithful(host) && Load(host, file) == Ok(base) && Inv(host, file, s, base) && p in s.stages
    ensures Inv(host, file, Next(host, s, p, action), base)
  {
    hide Load, Apply;
    match s.stages[p]
    case Done(_, _) =>
    case Crashed(_) =>
    case Waiting(c) => WaitingKeeps(host, file, s, base, p, action);
    case Decided(c, u) =>
      if action.Replace? {
        ReplaceKeeps(host, file, s, base, p, c, u, action);
      } else if action.Crash? {
        MovedKeeps(host, file, s, base, p, Crashed(c));
      }
    case stage =>
      if action.Crash? {
        MovedKeeps(host, file, s, base, p, Crashed(stage.change));
      } else if Next(host, s, p, action) != s {
        PrivateKeeps(host, file, s, base, p, action);
      }
  }

  lemma WaitingKeeps(host: Host, file: Option<Bytes>, s: System, base: State, p: ProcessId, action: Action)
    requires Inv(host, file, s, base) && p in s.stages && s.stages[p].Waiting?
    ensures Inv(host, file, Next(host, s, p, action), base)
  {
    hide Apply, Load, FileOk, CommitsOk, ValidTarget, ValidState, ValidChange, After, AfterReplace, Answers;
    assert StageOk(host, s, base, p);
    var t := Next(host, s, p, action);
    if t != s {
      if t.stages[p].Locked? {
        LockKeeps(host, file, s, base, p, s.stages[p].change);
      } else {
        MovedKeeps(host, file, s, base, p, t.stages[p]);
      }
    }
  }

  /** A change that is found impossible is so for the registry of this moment. */
  lemma DecidedIsJustified(host: Host, s: System, base: State, p: ProcessId)
    requires CommitsOk(s) && p in s.stages && s.stages[p].Loaded? && StageOk(host, s, base, p)
    ensures var c := s.stages[p].change;
            Apply(s.stages[p].state, c).Err? ==> Declines(s, base, p, c, Apply(s.stages[p].state, c).error)
  {
    hide Apply, ValidChange;
    StartedBefore(s, p);
    assert s.commits[..|s.commits|] == s.commits;
    var applied := Apply(s.stages[p].state, s.stages[p].change);
    if applied.Err? {
      assert DeclinesAt(s.commits, |s.commits|, base, s.stages[p].change, applied.error);
    }
  }

  /** The steps that read but never write anything shared. */
  lemma PrivateKeeps(host: Host, file: Option<Bytes>, s: System, base: State, p: ProcessId, action: Action)
    requires Faithful(host) && Load(host, file) == Ok(base) && Inv(host, file, s, base) && p in s.stages
    requires var stage := s.stages[p]; stage.Started? || stage.Locked? || stage.Loaded? || stage.Replaced?
    requires !action.Crash? && Next(host, s, p, action) != s
    ensures Inv(host, file, Next(host, s, p, action), base)
  {
    hide Apply, Load, FileOk, CommitsOk, ValidTarget, ValidState, After, AfterReplace;
    assert StageOk(host, s, base, p);
    CurrentLoads(host, file, s, base);
    if s.stages[p].Loaded? && action.Decide? {
      DecidedIsJustified(host, s, base, p);
    }
    MovedKeeps(host, file, s, base, p, Next(host, s, p, action).stages[p]);
  }

  lemma {:induction false} RunKeeps(host: Host, file: Option<Bytes>, steps: seq<Step>, base: State)
    requires Faithful(host) && Load(host, file) == Ok(base)
    ensures Inv(host, file, Run(host, file, steps), base)
  {
    if steps == [] {
      assert ValidState(host, base);
    } else {
      var earlier, last := steps[..|steps| - 1], steps[|steps| - 1];
      RunKeeps(host, file, earlier, base);
      NextKeeps(host, file, Run(host, file, earlier), base, last.process, last.action);
    }
  }

  // ---------------------------------------------------------------- what follows for every run

  /** Any reader, at any moment of any interleaving, reads the committed changes applied one after another. */
  lemma ReadersSeeCommits(host: Host, file: Option<Bytes>, steps: seq<Step>, base: State)
    requires Faithful(host) && Load(host, file) == Ok(base)
    ensures Load(host, Run(host, file, steps).file) == Ok(After(base, Run(host, file, steps).commits))
  {
    RunKeeps(host, file, steps, base);
    CurrentLoads(host, file, Run(host, file, steps), base);
  }

  /** A finished update that reports success is linearized between its start and its end. */
  lemma UpdatesAreLinearized(host: Host, file: Option<Bytes>, steps: seq<Step>, base: State, p: ProcessId)
    requires Faithful(host) && Load(host, file) == Ok(base) && p in Run(host, file, steps).stages
    ensures var s := Run(host, file, steps);
            && (s.stages[p].Done? && s.stages[p].result.Ok? ==>
                  Answers(s, base, p, s.stages[p].change, s.stages[p].result.value))
            && (s.stages[p].Done? && s.stages[p].result.Err? && s.stages[p].result.error != Uncertain ==>
                  !Committed(s.commits, p))
            && (s.stages[p].Done? && s.stages[p].result.Err? && s.stages[p].result.error in {Conflict, NotFound} ==>
                  Declines(s, base, p, s.stages[p].change, s.stages[p].result.error))
            && forall i, j :: 0 <= i < j < |s.commits| ==> s.commits[i].process != s.commits[j].process
  {
    RunKeeps(host, file, steps, base);
    assert StageOk(host, Run(host, file, steps), base, p);
  }

  /** What a linearized success did, at the moment when it took effect, and what it may tell its caller. */
  lemma AnswerTellsEffect(s: System, base: State, p: ProcessId, c: Change, u: Update)
    requires Answers(s, base, p, c, u)
    ensures exists i :: s.since[p] <= i <= |s.commits| && Effect(After(base, s.commits[..i]), c, u)
    ensures Tells(c, u)
  {
    hide Apply, After, Effect;
    var i :| s.since[p] <= i <= |s.commits| && AnswersAt(s.commits, i, base, p, c, u);
    ApplyExactly(After(base, s.commits[..i]), c);
    EffectTells(After(base, s.commits[..i]), c, u);
  }

  /** The reported registry holds what was asked for, and says by itself whether that changed anything. */
  ghost predicate Tells(c: Change, u: Update) {
    match c
    case Select(name) =>
      && name in u.state.targets && u.state.selected == Some(name)
      && (u.changed <==> u.previous != Some(name))
    case Register(t) => t.name in u.state.targets && u.state.targets[t.name] == t && u.state.selected == u.previous
  }

  lemma EffectTells(before: State, c: Change, u: Update)
    requires Effect(before, c, u)
    ensures Tells(c, u)
  {
  }

  /** A linearized refusal of the change: at some moment since the start the label was bound to another target, or the
      selected one was not bound at all. */
  lemma DeclineTellsWhy(s: System, base: State, p: ProcessId, c: Change, e: Error)
    requires Declines(s, base, p, c, e)
    ensures exists i :: s.since[p] <= i <= |s.commits|
              && var now := After(base, s.commits[..i]).targets;
                 match c
                 case Select(name) => e == NotFound && name !in now
                 case Register(t) => e == Conflict && t.name in now && now[t.name] != t
  {
    hide Apply, After;
    var i :| s.since[p] <= i <= |s.commits| && DeclinesAt(s.commits, i, base, c, e);
    ApplyExactly(After(base, s.commits[..i]), c);
  }

  /** The reported previous selection is the one in force right before the update's own commit. */
  lemma PreviousIsAtCommit(s: System, base: State, p: ProcessId, c: Change, u: Update)
    requires Answers(s, base, p, c, u) && u.changed
    ensures exists i :: s.since[p] <= i < |s.commits| && s.commits[i] == Commit(p, c)
              && u.previous == After(base, s.commits[..i]).selected
              && u.state == After(base, s.commits[..i + 1])
  {
    var i :| s.since[p] <= i <= |s.commits| && AnswersAt(s.commits, i, base, p, c, u);
    assert s.commits[..i + 1][..i] == s.commits[..i];
  }

  /** While the first file cannot be read, no interleaving of updates replaces it. */
  lemma {:induction false} UnreadableIsPreserved(host: Host, file: Option<Bytes>, steps: seq<Step>)
    requires Load(host, file).Err?
    ensures Run(host, file, steps).file == file && Run(host, file, steps).commits == []
    ensures forall p :: p in Run(host, file, steps).stages ==> Unread(Run(host, file, steps).stages[p])
  {
    hide Next, Load;
    if steps != [] {
      var earlier, last := steps[..|steps| - 1], steps[|steps| - 1];
      UnreadableIsPreserved(host, file, earlier);
      UnreadStep(host, Run(host, file, earlier), last.process, last.action);
    }
  }

  lemma UnreadStep(host: Host, s: System, p: ProcessId, action: Action)
    requires Load(host, s.file).Err? && s.commits == []
    requires forall q :: q in s.stages ==> Unread(s.stages[q])
    ensures Next(host, s, p, action).file == s.file && Next(host, s, p, action).commits == []
    ensures forall q :: q in Next(host, s, p, action).stages ==> Unread(Next(host, s, p, action).stages[q])
  {
    hide Apply, ValidChange;
    var t := Next(host, s, p, action);
    assert forall q :: q in t.stages && q != p ==> q in s.stages && t.stages[q] == s.stages[q];
  }

  predicate Unread(stage: Stage) {
    || stage.Started? || stage.Waiting? || stage.Locked? || stage.Crashed?
    || (stage.Done? && stage.result.Err? && stage.result.error != Uncertain)
  }

  /** A step that ends in an error other than Uncertain does not touch the file. */
  lemma ErrorsLeaveFile(host: Host, s: System, p: ProcessId, action: Action)
    requires p in s.stages && !s.stages[p].Done?
    requires var t := Next(host, s, p, action).stages[p]; t.Done? && t.result.Err? && t.result.error != Uncertain
    ensures Next(host, s, p, action).file == s.file && Next(host, s, p, action).commits == s.commits
  {
  }

  lemma NextGrows(host: Host, s: System, p: ProcessId, action: Action)
    ensures s.commits <= Next(host, s, p, action).commits
  {
  }

  /** Commits only accumulate along a run. */
  lemma {:induction false} CommitsGrow(host: Host, file: Option<Bytes>, steps: seq<Step>, more: seq<Step>)
    ensures Run(host, file, steps).commits <= Run(host, file, steps + more).commits
  {
    hide Next;
    if more == [] {
      assert steps + more == steps;
    } else {
      var all := steps + more;
      assert all[..|all| - 1] == steps + more[..|more| - 1];
      CommitsGrow(host, file, steps, more[..|more| - 1]);
      NextGrows(host, Run(host, file, all[..|all| - 1]), all[|all| - 1].process, all[|all| - 1].action);
    }
  }

  lemma {:induction false} AfterKeepsBindings(base: State, commits: seq<Commit>, m: nat)
    requires m <= |commits|
    ensures forall name :: name in After(base, commits[..m]).targets ==>
              && name in After(base, commits).targets
              && After(base, commits).targets[name] == After(base, commits[..m]).targets[name]
  {
    if m == |commits| {
      assert commits[..m] == commits;
    } else {
      var before := commits[..|commits| - 1];
      assert before[..m] == commits[..m];
      AfterKeepsBindings(base, before, m);
      var applied := Apply(After(base, before), commits[|commits| - 1].change);
      if applied.Ok? {
        ApplyKeepsBindings(After(base, before), commits[|commits| - 1].change);
      }
    }
  }

  /** A name once bound keeps exactly that target for every later reader. */
  lemma BindingsAreForever(host: Host, file: Option<Bytes>, steps: seq<Step>, more: seq<Step>, base: State)
    requires Faithful(host) && Load(host, file) == Ok(base)
    ensures var now, later := Load(host, Run(host, file, steps).file), Load(host, Run(host, file, steps + more).file);
            && now.Ok? && later.Ok?
            && forall name :: name in now.value.targets ==>
                 name in later.value.targets && later.value.targets[name] == now.value.targets[name]
  {
    ReadersSeeCommits(host, file, steps, base);
    ReadersSeeCommits(host, file, steps + more, base);
    CommitsGrow(host, file, steps, more);
    var m, commits := |Run(host, file, steps).commits|, Run(host, file, steps + more).commits;
    assert commits[..m] == Run(host, file, steps).commits;
    AfterKeepsBindings(base, commits, m);
  }

  // ---------------------------------------------------------------- resolving a target

  datatype Source = Flag | Environment | Saved

  function Resolve(s: State, explicit: Option<string>, environment: Option<string>): Result<(Target, Source), Error> {
    var named := if explicit.Some? then explicit else if environment.Some? then environment else s.selected;
    var source := if explicit.Some? then Flag else if environment.Some? then Environment else Saved;
    match named
    case None => Err(NotFound)
    case Some(name) =>
      if !IsLabel(name) then Err(InvalidLabel)
      else if name !in s.targets then Err(NotFound)
      else Ok((s.targets[name], source))
  }

  /** An explicit label goes before one from the environment, and that before the saved one. */
  lemma ResolveExactly(s: State, explicit: Option<string>, environment: Option<string>)
    ensures match Resolve(s, explicit, environment)
            case Ok((target, Flag)) =>
              explicit.Some? && explicit.value in s.targets && target == s.targets[explicit.value]
            case Ok((target, Environment)) =>
              && explicit == None && environment.Some? && environment.value in s.targets
              && target == s.targets[environment.value]
            case Ok((target, Saved)) =>
              && explicit == None && environment == None && s.selected.Some? && s.selected.value in s.targets
              && target == s.targets[s.selected.value]
            case Err(e) =>
              var named := if explicit.Some? then explicit else if environment.Some? then environment else s.selected;
              || (e == NotFound && named == None)
              || (e == InvalidLabel && named.Some? && !IsLabel(named.value))
              || (e == NotFound && named.Some? && IsLabel(named.value) && named.value !in s.targets)
  {
    hide IsLabel;
  }

  /** On any registry that a reader sees, the saved selection resolves exactly when there is one. */
  lemma SavedSelectionResolves(host: Host, file: Option<Bytes>, steps: seq<Step>, base: State)
    requires Faithful(host) && Load(host, file) == Ok(base)
    ensures var loaded := Load(host, Run(host, file, steps).file);
            && loaded.Ok?
            && (loaded.value.selected.Some? <==> Resolve(loaded.value, None, None).Ok?)
            && (loaded.value.selected.Some? ==>
                  Resolve(loaded.value, None, None).value == (loaded.value.targets[loaded.value.selected.value], Saved))
  {
    RunKeeps(host, file, steps, base);
    ReadersSeeCommits(host, file, steps, base);
  }
}
