/** The launch-generation protocol of the desktop shell: boot sequences, backend exits,
    readiness, and the rollback of a staged core that never came up, interleaved at every
    await. */
module Launch {
  import opened Results
  import CoreResolver

  type Core = CoreResolver.Core

  /** One boot sequence: opening its screen, about to launch, waiting for the backend it
      launched, recording an adoption, or over. `exclusive` ones, and all that open a screen,
      hold the recovering flag until they launch. */
  datatype Boot =
    | Opening(override: Option<Core>)
    | Preparing(exclusive: bool, override: Option<Core>)
    | Waiting(generation: nat, core: Core)
    | Adopting(generation: nat, core: Core)
    | Ended

  /** One scheduled rollback. */
  datatype Rollback =
    | Quarantining(generation: nat)
    | Terminating(generation: nat)
    | Finished

  /** What is observable; `current` is the launch generation at that moment. */
  datatype Event =
    | Started(generation: nat, boot: nat, core: Core)
    | Ready(generation: nat)
    | Scheduled(generation: nat, current: nat, version: string)
    | Relaunched(generation: nat, current: nat, boot: nat, core: Core)
    | AdoptionBegun(generation: nat, current: nat)
    | Loaded(generation: nat, current: nat, served: nat)
    | Reported(generation: nat, current: nat)

  /** The shell's variables, the sequences and rollbacks suspended at their awaits, and what
      has been observed. `cores` is what each generation ran; `port` stands for the generation
      whose backend reported the port in use. */
  datatype Shell = Shell(
    generation: nat, recoveryGeneration: nat, recovering: bool, ready: bool, port: Option<nat>,
    boots: seq<Boot>, rollbacks: seq<Rollback>, cores: map<nat, Core>, log: seq<Event>)

  datatype Step =
    | Initialize
    | Restart(quitting: bool)
    | ScreenOpen(b: nat)
    | Recover
    | LaunchBackend(b: nat, resolved: Core, spawned: bool)
    | ReadySignal(generation: nat)
    | ChildError(generation: nat)
    | ChildExit(generation: nat, quitting: bool, reports: bool)
    | WaitEnds(b: nat, healthy: bool)
    | AdoptionDone(b: nat)
    | QuarantineDone(r: nat, fails: bool)
    | TerminateDone(r: nat, quitting: bool, bundled: string)

  /** The first-activation rollback gate. */
  predicate ShouldRollback(core: Core, ready: bool, recovering: bool, recoveryScheduled: bool) {
    core.staged && core.firstRun && !ready && !recovering && !recoveryScheduled
  }

  predicate CanRollback(s: Shell, core: Core, generation: nat) {
    ShouldRollback(core, s.ready, s.recovering, s.recoveryGeneration == generation)
  }

  function Note(s: Shell, e: Event): Shell {
    s.(log := s.log + [e])
  }

  function Schedule(s: Shell, core: Core, generation: nat): Shell {
    Note(s.(recoveryGeneration := generation, rollbacks := s.rollbacks + [Quarantining(generation)]),
         Scheduled(generation, s.generation, core.version))
  }

  /** A launch failed: roll it back, leave it to the rollback already scheduled, or show the
      error unless `reports` is off. */
  function FailLaunch(s: Shell, core: Core, generation: nat, reports: bool): Shell {
    if CanRollback(s, core, generation) then Schedule(s, core, generation)
    else if s.recoveryGeneration == generation || !reports then s
    else Note(s, Reported(generation, s.generation))
  }

  function SetBoot(s: Shell, b: nat, boot: Boot): Shell
    requires b < |s.boots|
  {
    s.(boots := s.boots[b := boot])
  }

  function AddBoot(s: Shell, boot: Boot): Shell {
    s.(recovering := s.recovering || boot.Opening? || (boot.Preparing? && boot.exclusive), boots := s.boots + [boot])
  }

  function SetRollback(s: Shell, r: nat, rollback: Rollback): Shell
    requires r < |s.rollbacks|
  {
    s.(rollbacks := s.rollbacks[r := rollback])
  }

  /** A new generation starts, not ready, for boot sequence `b`. */
  function Start(s: Shell, b: nat, core: Core): Shell
    requires b < |s.boots| && s.boots[b].Preparing?
  {
    var generation := s.generation + 1;
    Note(s.(generation := generation, ready := false, cores := s.cores[generation := core],
            recovering := if s.boots[b].exclusive then false else s.recovering,
            boots := s.boots[b := Waiting(generation, core)]),
         Started(generation, b, core))
  }

  /** The core a boot sequence launches: the one imposed on it, or the resolved one. */
  function CoreOf(boot: Boot, resolved: Core): Core
    requires boot.Preparing?
  {
    if boot.override.Some? then boot.override.value else resolved
  }

  function DoLaunch(s: Shell, b: nat, resolved: Core, spawned: bool): Shell
    requires b < |s.boots| && s.boots[b].Preparing?
  {
    var core := CoreOf(s.boots[b], resolved);
    var started := Start(s, b, core);
    if spawned then started
    else SetBoot(FailLaunch(started, core, started.generation, true), b, Ended)
  }

  /** The wait for readiness ends; a sequence that has been superseded just stops. */
  function DoWaitEnds(s: Shell, b: nat, healthy: bool): Shell
    requires b < |s.boots| && s.boots[b].Waiting?
  {
    var boot := s.boots[b];
    if boot.generation != s.generation then SetBoot(s, b, Ended)
    else if healthy && s.ready then
      Note(SetBoot(s, b, Adopting(boot.generation, boot.core)), AdoptionBegun(boot.generation, s.generation))
    else SetBoot(FailLaunch(s, boot.core, boot.generation, true), b, Ended)
  }

  /** A child's exit counts only for the current generation; while a relaunch is under way
      or after a requested restart it reports nothing. */
  function DoChildExit(s: Shell, generation: nat, quitting: bool, reports: bool): Shell {
    if generation != s.generation || generation !in s.cores || quitting then s
    else FailLaunch(s, s.cores[generation], generation, reports && !s.recovering)
  }

  function DoChildError(s: Shell, generation: nat): Shell {
    if generation != s.generation || generation !in s.cores then s
    else if CanRollback(s, s.cores[generation], generation) then Schedule(s, s.cores[generation], generation)
    else s
  }

  /** The failed version has been recorded, or recording it failed. */
  function DoQuarantineDone(s: Shell, r: nat, fails: bool): Shell
    requires r < |s.rollbacks| && s.rollbacks[r].Quarantining?
  {
    var g := s.rollbacks[r].generation;
    if g != s.generation then SetRollback(s, r, Finished)
    else if fails then Note(SetRollback(s, r, Finished), Reported(g, s.generation))
    else SetRollback(s, r, Terminating(g))
  }

  /** The rollback relaunches the bundle, unless it has been superseded or another relaunch is under way. */
  function DoTerminateDone(s: Shell, r: nat, quitting: bool, bundled: string): Shell
    requires r < |s.rollbacks| && s.rollbacks[r].Terminating?
  {
    var g := s.rollbacks[r].generation;
    var done := SetRollback(s, r, Finished);
    if g != s.generation || s.recovering || quitting then done
    else
      var core := CoreResolver.Core(bundled, false, false);
      Note(AddBoot(done, Opening(Some(core))), Relaunched(g, s.generation, |s.boots|, core))
  }

  /** A restart has its screen and forgets the port of the backend it replaces. */
  function DoScreenOpen(s: Shell, b: nat): Shell
    requires b < |s.boots| && s.boots[b].Opening?
  {
    SetBoot(s, b, Preparing(true, s.boots[b].override)).(port := None)
  }

  /** The adoption is recorded and the dashboard is opened at the port in use, if there is one. */
  function DoAdoptionDone(s: Shell, b: nat): Shell
    requires b < |s.boots| && s.boots[b].Adopting?
  {
    var ended := SetBoot(s, b, Ended);
    if s.port.None? then ended
    else Note(ended, Loaded(s.boots[b].generation, s.generation, s.port.value))
  }

  /** Does this step start a backend? */
  predicate Launches(s: Shell, step: Step) {
    step.LaunchBackend? && step.b < |s.boots| && s.boots[step.b].Preparing?
  }

  function Next(s: Shell, step: Step): Shell {
    match step
    case Initialize => AddBoot(s, Preparing(false, None))
    case Restart(quitting) => if s.recovering || quitting then s else AddBoot(s, Opening(None))
    case ScreenOpen(b) => if b < |s.boots| && s.boots[b].Opening? then DoScreenOpen(s, b) else s
    case Recover => if s.recovering then s else AddBoot(s, Preparing(true, None))
    case LaunchBackend(b, resolved, spawned) =>
      if b < |s.boots| && s.boots[b].Preparing? then DoLaunch(s, b, resolved, spawned) else s
    case ReadySignal(g) =>
      if g == s.generation && g in s.cores then Note(s.(ready := true, port := Some(g)), Ready(g)) else s
    case ChildError(g) => DoChildError(s, g)
    case ChildExit(g, quitting, reports) => DoChildExit(s, g, quitting, reports)
    case WaitEnds(b, healthy) => if b < |s.boots| && s.boots[b].Waiting? then DoWaitEnds(s, b, healthy) else s
    case AdoptionDone(b) =>
      if b < |s.boots| && s.boots[b].Adopting? then DoAdoptionDone(s, b) else s
    case QuarantineDone(r, fails) =>
      if r < |s.rollbacks| && s.rollbacks[r].Quarantining? then DoQuarantineDone(s, r, fails) else s
    case TerminateDone(r, quitting, bundled) =>
      if r < |s.rollbacks| && s.rollbacks[r].Terminating? then DoTerminateDone(s, r, quitting, bundled) else s
  }

  function Run(s: Shell, steps: seq<Step>): Shell
    decreases |steps|
  {
    if steps == [] then s else Run(Next(s, steps[0]), steps[1..])
  }

  const START: Shell := Shell(0, 0, false, false, None, [], [], map[], [])

  // ----- the invariant -----

  /** Has this boot sequence not launched anything yet? */
  predicate Unlaunched(b: Boot) { b.Opening? || b.Preparing? }

  /** What one event says, given the cores each generation ran. */
  predicate EventOk(s: Shell, e: Event) {
    match e
    case Started(g, b, core) =>
      0 < g <= s.generation && g in s.cores && s.cores[g] == core && b < |s.boots| && !Unlaunched(s.boots[b])
    case Ready(g) => g <= s.generation
    case Scheduled(g, current, version) =>
      0 < g == current <= s.generation && g <= s.recoveryGeneration && g in s.cores &&
      s.cores[g].staged && s.cores[g].firstRun && s.cores[g].version == version
    case Relaunched(g, current, b, core) =>
      g == current <= s.generation && !core.staged && b < |s.boots| &&
      (Unlaunched(s.boots[b]) ==> s.boots[b].override == Some(core))
    case AdoptionBegun(g, current) => g == current <= s.generation
    case Reported(g, current) => g == current <= s.generation
    case Loaded(g, current, served) => g <= current <= s.generation && 0 < served <= current
  }

  /** What two events say about each other. */
  predicate PairOk(first: Event, second: Event) {
    (first.Scheduled? && second.Scheduled? ==> first.generation < second.generation) &&
    (first.Ready? && second.Scheduled? ==> first.generation != second.generation) &&
    (first.Started? && second.Relaunched? ==> first.boot != second.boot) &&
    (first.Relaunched? && second.Started? && first.boot == second.boot ==> first.core == second.core)
  }

  ghost predicate LogOk(s: Shell) {
    (forall k :: 0 <= k < |s.log| ==> EventOk(s, s.log[k])) &&
    (forall j, k :: 0 <= j < k < |s.log| ==> PairOk(s.log[j], s.log[k]))
  }

  predicate BootOk(s: Shell, b: Boot) {
    (b.Waiting? || b.Adopting?) ==> 0 < b.generation <= s.generation && b.generation in s.cores && s.cores[b.generation] == b.core
  }

  ghost predicate Inv(s: Shell) {
    s.recoveryGeneration <= s.generation &&
    (forall g :: g in s.cores ==> 0 < g <= s.generation) &&
    (s.generation > 0 ==> s.generation in s.cores) &&
    (s.port.Some? ==> 0 < s.port.value <= s.generation && (s.port.value == s.generation <==> s.ready)) &&
    (forall b :: 0 <= b < |s.boots| ==> BootOk(s, s.boots[b])) &&
    (!s.ready ==> forall k :: 0 <= k < |s.log| && s.log[k].Ready? ==> s.log[k].generation < s.generation) &&
    LogOk(s)
  }

  /** `s'` has the same log, and may have moved its sequences, rollbacks, flag and port. */
  predicate Quiet(s: Shell, s': Shell) {
    s'.generation == s.generation && s'.recoveryGeneration == s.recoveryGeneration && s'.cores == s.cores &&
    s'.log == s.log && (s.ready ==> s'.ready) && |s.boots| <= |s'.boots| &&
    (s'.port.Some? ==> 0 < s'.port.value <= s'.generation && (s'.port.value == s'.generation <==> s'.ready)) &&
    forall b :: 0 <= b < |s.boots| ==>
      !Unlaunched(s'.boots[b]) || (Unlaunched(s.boots[b]) && s'.boots[b].override == s.boots[b].override)
  }

  lemma QuietKeeps(s: Shell, s': Shell)
    requires Inv(s) && Quiet(s, s') && forall b :: 0 <= b < |s'.boots| ==> BootOk(s', s'.boots[b])
    ensures Inv(s')
  {
    forall k | 0 <= k < |s'.log| ensures EventOk(s', s'.log[k]) { assert EventOk(s, s.log[k]); }
  }

  lemma NoteKeeps(s: Shell, e: Event)
    requires Inv(s) && EventOk(s, e) && (e.Ready? ==> s.ready)
    requires forall k :: 0 <= k < |s.log| ==> PairOk(s.log[k], e)
    ensures Inv(Note(s, e))
  {
    var s' := Note(s, e);
    forall k | 0 <= k < |s'.log| ensures EventOk(s', s'.log[k]) {
      if k < |s.log| { assert EventOk(s, s.log[k]); }
    }
  }

  lemma SetBootKeeps(s: Shell, b: nat, boot: Boot)
    requires Inv(s) && b < |s.boots| && BootOk(s, boot) && !Unlaunched(boot)
    ensures Inv(SetBoot(s, b, boot))
  {
    QuietKeeps(s, SetBoot(s, b, boot));
  }

  lemma AddBootKeeps(s: Shell, boot: Boot)
    requires Inv(s) && Unlaunched(boot)
    ensures Inv(AddBoot(s, boot))
  {
    QuietKeeps(s, AddBoot(s, boot));
  }

  lemma ScreenOpenKeeps(s: Shell, b: nat)
    requires Inv(s) && b < |s.boots| && s.boots[b].Opening?
    ensures Inv(DoScreenOpen(s, b))
  {
    QuietKeeps(s, DoScreenOpen(s, b));
  }

  lemma AdoptionDoneKeeps(s: Shell, b: nat)
    requires Inv(s) && b < |s.boots| && s.boots[b].Adopting?
    ensures Inv(DoAdoptionDone(s, b))
  {
    assert BootOk(s, s.boots[b]);
    SetBootKeeps(s, b, Ended);
    if s.port.Some? { NoteKeeps(SetBoot(s, b, Ended), Loaded(s.boots[b].generation, s.generation, s.port.value)); }
  }

  lemma ScheduleKeeps(s: Shell, core: Core)
    requires Inv(s) && s.generation in s.cores && s.cores[s.generation] == core && CanRollback(s, core, s.generation)
    ensures Inv(Schedule(s, core, s.generation))
  {
    var s' := Schedule(s, core, s.generation);
    forall k | 0 <= k < |s.log| ensures EventOk(s', s.log[k]) && PairOk(s.log[k], s'.log[|s.log|]) {
      assert EventOk(s, s.log[k]);
    }
    forall k | 0 <= k < |s'.log| ensures EventOk(s', s'.log[k]) { }
  }

  lemma FailLaunchKeeps(s: Shell, core: Core, reports: bool)
    requires Inv(s) && s.generation in s.cores && s.cores[s.generation] == core
    ensures Inv(FailLaunch(s, core, s.generation, reports))
  {
    if CanRollback(s, core, s.generation) {
      ScheduleKeeps(s, core);
    } else if s.recoveryGeneration != s.generation && reports {
      NoteKeeps(s, Reported(s.generation, s.generation));
    }
  }

  lemma StartKeeps(s: Shell, b: nat, resolved: Core)
    requires Inv(s) && b < |s.boots| && s.boots[b].Preparing?
    ensures Inv(Start(s, b, CoreOf(s.boots[b], resolved)))
  {
    var core := CoreOf(s.boots[b], resolved);
    var g := s.generation + 1;
    var s' := Start(s, b, core).(log := s.log);
    forall k | 0 <= k < |s.log|
      ensures EventOk(s', s.log[k]) && (s.log[k].Ready? ==> s.log[k].generation < g) && PairOk(s.log[k], Started(g, b, core))
    {
      assert EventOk(s, s.log[k]);
    }
    forall c | 0 <= c < |s'.boots| ensures BootOk(s', s'.boots[c]) { assert BootOk(s, s.boots[c]); }
    NoteKeeps(s', Started(g, b, core));
    assert Note(s', Started(g, b, core)) == Start(s, b, core);
  }

  lemma LaunchKeeps(s: Shell, b: nat, resolved: Core, spawned: bool)
    requires Inv(s) && b < |s.boots| && s.boots[b].Preparing?
    ensures Inv(DoLaunch(s, b, resolved, spawned))
  {
    hide Inv;
    StartKeeps(s, b, resolved);
    if !spawned {
      var core := CoreOf(s.boots[b], resolved);
      var started := Start(s, b, core);
      FailLaunchKeeps(started, core, true);
      SetBootKeeps(FailLaunch(started, core, started.generation, true), b, Ended);
    }
  }

  lemma WaitEndsKeeps(s: Shell, b: nat, healthy: bool)
    requires Inv(s) && b < |s.boots| && s.boots[b].Waiting?
    ensures Inv(DoWaitEnds(s, b, healthy))
  {
    var boot := s.boots[b];
    assert BootOk(s, boot);
    if boot.generation != s.generation {
      SetBootKeeps(s, b, Ended);
    } else if healthy && s.ready {
      SetBootKeeps(s, b, Adopting(boot.generation, boot.core));
      NoteKeeps(SetBoot(s, b, Adopting(boot.generation, boot.core)), AdoptionBegun(boot.generation, s.generation));
    } else {
      FailLaunchKeeps(s, boot.core, true);
      SetBootKeeps(FailLaunch(s, boot.core, s.generation, true), b, Ended);
    }
  }

  lemma QuarantineDoneKeeps(s: Shell, r: nat, fails: bool)
    requires Inv(s) && r < |s.rollbacks| && s.rollbacks[r].Quarantining?
    ensures Inv(DoQuarantineDone(s, r, fails))
  {
    var g := s.rollbacks[r].generation;
    QuietKeeps(s, SetRollback(s, r, Finished));
    QuietKeeps(s, SetRollback(s, r, Terminating(g)));
    if g == s.generation && fails { NoteKeeps(SetRollback(s, r, Finished), Reported(g, g)); }
  }

  lemma TerminateDoneKeeps(s: Shell, r: nat, quitting: bool, bundled: string)
    requires Inv(s) && r < |s.rollbacks| && s.rollbacks[r].Terminating?
    ensures Inv(DoTerminateDone(s, r, quitting, bundled))
  {
    var g := s.rollbacks[r].generation;
    var done := SetRollback(s, r, Finished);
    QuietKeeps(s, done);
    if !(g != s.generation || s.recovering || quitting) {
      var core := CoreResolver.Core(bundled, false, false);
      var e := Relaunched(g, s.generation, |s.boots|, core);
      AddBootKeeps(done, Opening(Some(core)));
      forall k | 0 <= k < |s.log| ensures PairOk(s.log[k], e) { assert EventOk(s, s.log[k]); }
      NoteKeeps(AddBoot(done, Opening(Some(core))), e);
    }
  }

  lemma ReadyKeeps(s: Shell, g: nat)
    requires Inv(s) && g == s.generation && g in s.cores
    ensures Inv(Note(s.(ready := true, port := Some(g)), Ready(g)))
  {
    QuietKeeps(s, s.(ready := true, port := Some(g)));
    NoteKeeps(s.(ready := true, port := Some(g)), Ready(g));
  }

  lemma ChildKeeps(s: Shell, g: nat, quitting: bool, reports: bool)
    requires Inv(s)
    ensures Inv(DoChildError(s, g)) && Inv(DoChildExit(s, g, quitting, reports))
  {
    if g == s.generation && g in s.cores {
      FailLaunchKeeps(s, s.cores[g], reports && !s.recovering);
      if CanRollback(s, s.cores[g], g) { ScheduleKeeps(s, s.cores[g]); }
    }
  }

  lemma StepKeeps(s: Shell, step: Step)
    requires Inv(s)
    ensures Inv(Next(s, step))
  {
    match step
    case Initialize => AddBootKeeps(s, Preparing(false, None));
    case Restart(quitting) => AddBootKeeps(s, Opening(None));
    case ScreenOpen(b) => if b < |s.boots| && s.boots[b].Opening? { ScreenOpenKeeps(s, b); }
    case Recover => AddBootKeeps(s, Preparing(true, None));
    case LaunchBackend(b, resolved, spawned) =>
      if b < |s.boots| && s.boots[b].Preparing? { LaunchKeeps(s, b, resolved, spawned); }
    case ReadySignal(g) => if g == s.generation && g in s.cores { ReadyKeeps(s, g); }
    case ChildError(g) => ChildKeeps(s, g, false, false);
    case ChildExit(g, quitting, reports) => ChildKeeps(s, g, quitting, reports);
    case WaitEnds(b, healthy) => if b < |s.boots| && s.boots[b].Waiting? { WaitEndsKeeps(s, b, healthy); }
    case AdoptionDone(b) =>
      if b < |s.boots| && s.boots[b].Adopting? { AdoptionDoneKeeps(s, b); }
    case QuarantineDone(r, fails) =>
      if r < |s.rollbacks| && s.rollbacks[r].Quarantining? { QuarantineDoneKeeps(s, r, fails); }
    case TerminateDone(r, quitting, bundled) =>
      if r < |s.rollbacks| && s.rollbacks[r].Terminating? { TerminateDoneKeeps(s, r, quitting, bundled); }
  }

  lemma {:induction false} RunKeeps(s: Shell, steps: seq<Step>)
    requires Inv(s)
    ensures Inv(Run(s, steps))
    decreases |steps|
  {
    if steps != [] {
      StepKeeps(s, steps[0]);
      RunKeeps(Next(s, steps[0]), steps[1..]);
    }
  }

  // ----- the promises -----

  /** In every run each generation schedules at most one rollback, only while it is current,
      only of a staged core on its first run, and never once it has reported ready. */
  lemma OneRollbackPerGeneration(steps: seq<Step>, j: nat, k: nat)
    requires var s := Run(START, steps); j < k < |s.log| && s.log[k].Scheduled?
    ensures var s := Run(START, steps);
      var g := s.log[k].generation;
      && (s.log[j].Scheduled? || s.log[j].Ready? ==> s.log[j].generation != g)
      && s.log[k].current == g && g in s.cores && s.cores[g].staged && s.cores[g].firstRun
      && s.cores[g].version == s.log[k].version
  {
    RunKeeps(START, steps);
    var s := Run(START, steps);
    assert EventOk(s, s.log[k]) && PairOk(s.log[j], s.log[k]);
  }

  /** What a rollback relaunches is the bundle, while its generation is still current; the
      generation that relaunch starts runs that bundle and is itself never rolled back. */
  lemma RollbackRunsTheBundle(steps: seq<Step>, i: nat, j: nat, k: nat)
    requires var s := Run(START, steps);
      i < |s.log| && j < |s.log| && k < |s.log| && s.log[i].Relaunched? && s.log[j].Started? && s.log[k].Scheduled?
    ensures var s := Run(START, steps);
      && s.log[i].generation == s.log[i].current && !s.log[i].core.staged
      && (s.log[j].boot == s.log[i].boot ==>
            i < j && s.log[j].core == s.log[i].core && s.log[k].generation != s.log[j].generation)
  {
    RunKeeps(START, steps);
    var s := Run(START, steps);
    assert EventOk(s, s.log[i]) && EventOk(s, s.log[j]) && EventOk(s, s.log[k]);
    if j < i { assert PairOk(s.log[j], s.log[i]); }
    if i < j { assert PairOk(s.log[i], s.log[j]); }
  }

  /** A superseded boot sequence neither begins an adoption nor reports an error. */
  lemma SupersededStaysSilent(steps: seq<Step>, k: nat)
    requires var s := Run(START, steps); k < |s.log| && (s.log[k].AdoptionBegun? || s.log[k].Reported?)
    ensures Run(START, steps).log[k].generation == Run(START, steps).log[k].current
  {
    RunKeeps(START, steps);
    var s := Run(START, steps);
    assert EventOk(s, s.log[k]);
  }

  // ----- opening the dashboard -----

  /** Does some step of this stretch start a backend? */
  ghost predicate SomeLaunch(s: Shell, steps: seq<Step>)
    decreases |steps|
  {
    steps != [] && (Launches(s, steps[0]) || SomeLaunch(Next(s, steps[0]), steps[1..]))
  }

  /** One step moves the generation exactly when it launches, and leaves an adoption alone. */
  lemma AdoptionWaits(s: Shell, step: Step, b: nat)
    requires b < |s.boots| && s.boots[b].Adopting? && step != AdoptionDone(b)
    ensures var s' := Next(s, step);
      && b < |s'.boots| && s'.boots[b] == s.boots[b]
      && s'.generation == (if Launches(s, step) then s.generation + 1 else s.generation)
  {
    hide CanRollback, CoreOf, FailLaunch;
    FailureTouchesLittle();
    if step.LaunchBackend? || step.WaitEnds? {
      hide DoChildExit, DoChildError, DoQuarantineDone, DoTerminateDone, DoScreenOpen, DoAdoptionDone;
    } else {
      hide DoLaunch, DoWaitEnds;
    }
  }

  /** A failed launch leaves the generation and every boot sequence alone. */
  lemma FailureTouchesLittle()
    ensures forall s, core, generation, reports ::
      var s' := FailLaunch(s, core, generation, reports); s'.boots == s.boots && s'.generation == s.generation
  {
  }

  lemma {:induction false} StretchGeneration(s: Shell, steps: seq<Step>, b: nat)
    requires b < |s.boots| && s.boots[b].Adopting? && AdoptionDone(b) !in steps
    ensures var v := Run(s, steps);
      && b < |v.boots| && v.boots[b] == s.boots[b]
      && s.generation <= v.generation && (s.generation < v.generation <==> SomeLaunch(s, steps))
    decreases |steps|
  {
    hide Next, Launches;
    if steps != [] {
      AdoptionWaits(s, steps[0], b);
      assert forall step :: step in steps[1..] ==> step in steps;
      StretchGeneration(Next(s, steps[0]), steps[1..], b);
    }
  }

  /** Opening the dashboard is not guarded again after the adoption is recorded. In every run,
      whatever happens during that wait: the adoption of the current generation ends with a
      load exactly when some port is known; the sequence that loads has been superseded exactly
      when some step of the wait started a backend; and what it loads is the current backend
      exactly when that one has reported ready. */
  lemma LoadAfterAdoption(earlier: seq<Step>, b: nat, wait: seq<Step>)
    requires var s := Run(START, earlier);
      b < |s.boots| && s.boots[b].Adopting? && s.boots[b].generation == s.generation
    requires AdoptionDone(b) !in wait
    ensures var s := Run(START, earlier);
      var v := Run(s, wait);
      var done := Next(v, AdoptionDone(b)).log;
      && (done == v.log <==> v.port.None?)
      && (done != v.log ==>
            && done[..|done| - 1] == v.log && done[|done| - 1].Loaded?
            && done[|done| - 1].generation == s.generation
            && (done[|done| - 1].generation != done[|done| - 1].current <==> SomeLaunch(s, wait))
            && (done[|done| - 1].served == done[|done| - 1].current <==> v.ready))
  {
    hide Next, SomeLaunch;
    var s := Run(START, earlier);
    StretchGeneration(s, wait, b);
    RunKeeps(START, earlier);
    RunKeeps(s, wait);
    LastStep(Run(s, wait), b);
  }

  lemma LastStep(v: Shell, b: nat)
    requires Inv(v) && b < |v.boots| && v.boots[b].Adopting?
    ensures var done := Next(v, AdoptionDone(b)).log;
      if v.port.None? then done == v.log
      else done == v.log + [Loaded(v.boots[b].generation, v.generation, v.port.value)] &&
           (v.port.value == v.generation <==> v.ready)
  {
  }

  /** A run in which a superseded sequence opens the dashboard: a restart asked for from the
      dashboard launches a second backend, which reports ready before the first sequence has
      recorded its adoption. */
  lemma SupersededCanLoad()
    ensures var core := CoreResolver.Core("2.0.0", true, true);
      Run(START, [Initialize, LaunchBackend(0, core, true), ReadySignal(1), WaitEnds(0, true),
                  Restart(false), ScreenOpen(1), LaunchBackend(1, core, true), ReadySignal(2), AdoptionDone(0)]).log
      == [Started(1, 0, core), Ready(1), AdoptionBegun(1, 1), Started(2, 1, core), Ready(2), Loaded(1, 2, 2)]
  {
    var core := CoreResolver.Core("2.0.0", true, true);
    var first := [Initialize, LaunchBackend(0, core, true), ReadySignal(1), WaitEnds(0, true)];
    var second := [Restart(false), ScreenOpen(1), LaunchBackend(1, core, true), ReadySignal(2)];
    FirstBoot(core);
    var s := Run(START, first);
    SecondBoot(s, core);
    var v := Run(s, second);
    assert Next(v, AdoptionDone(0)).log == v.log + [Loaded(1, 2, 2)];
    RunConcat(START, first, second + [AdoptionDone(0)]);
    RunConcat(s, second, [AdoptionDone(0)]);
    assert Run(v, [AdoptionDone(0)]) == Run(Next(v, AdoptionDone(0)), []);
    assert first + (second + [AdoptionDone(0)]) ==
      [Initialize, LaunchBackend(0, core, true), ReadySignal(1), WaitEnds(0, true),
       Restart(false), ScreenOpen(1), LaunchBackend(1, core, true), ReadySignal(2), AdoptionDone(0)];
  }

  lemma FirstBoot(core: Core)
    ensures Run(START, [Initialize, LaunchBackend(0, core, true), ReadySignal(1), WaitEnds(0, true)]) ==
      Shell(1, 0, false, true, Some(1), [Adopting(1, core)], [], map[1 := core],
            [Started(1, 0, core), Ready(1), AdoptionBegun(1, 1)])
  {
    var steps := [Initialize, LaunchBackend(0, core, true), ReadySignal(1), WaitEnds(0, true)];
    var s1 := Next(START, steps[0]);
    var s2 := Next(s1, steps[1]);
    var s3 := Next(s2, steps[2]);
    assert s1.boots == [Preparing(false, None)];
    assert s2 == Shell(1, 0, false, false, None, [Waiting(1, core)], [], map[1 := core], [Started(1, 0, core)]);
    assert s3.log == [Started(1, 0, core), Ready(1)] && s3.boots == [Waiting(1, core)];
    RunFour(START, steps);
  }

  lemma SecondBoot(s: Shell, core: Core)
    requires s.boots == [Adopting(1, core)] && s.generation == 1 && !s.recovering
    ensures var v := Run(s, [Restart(false), ScreenOpen(1), LaunchBackend(1, core, true), ReadySignal(2)]);
      v.boots == [Adopting(1, core), Waiting(2, core)] && v.generation == 2 && v.port == Some(2) &&
      v.log == s.log + [Started(2, 1, core), Ready(2)]
  {
    var steps := [Restart(false), ScreenOpen(1), LaunchBackend(1, core, true), ReadySignal(2)];
    var s1 := Next(s, steps[0]);
    var s2 := Next(s1, steps[1]);
    var s3 := Next(s2, steps[2]);
    assert s1.boots == [Adopting(1, core), Opening(None)];
    assert s2.boots == [Adopting(1, core), Preparing(true, None)];
    assert s3.boots == [Adopting(1, core), Waiting(2, core)] && s3.generation == 2;
    RunFour(s, steps);
  }

  lemma RunFour(s: Shell, steps: seq<Step>)
    requires |steps| == 4
    ensures Run(s, steps) == Next(Next(Next(Next(s, steps[0]), steps[1]), steps[2]), steps[3])
  {
    hide Next;
    var s1 := Next(s, steps[0]);
    var s2 := Next(s1, steps[1]);
    assert steps[1..][1..] == steps[2..] && steps[2..][1..] == steps[3..] && steps[3..][1..] == [];
    assert Run(s1, steps[1..]) == Run(s2, steps[2..]);
    var s3 := Next(s2, steps[2]);
    assert Run(s2, steps[2..]) == Run(s3, steps[3..]);
    assert Run(s3, steps[3..]) == Run(Next(s3, steps[3]), []);
  }

  lemma {:induction false} RunConcat(s: Shell, a: seq<Step>, c: seq<Step>)
    ensures Run(s, a + c) == Run(Run(s, a), c)
    decreases |a|
  {
    hide Next;
    if a == [] {
      assert a + c == c;
    } else {
      RunConcat(Next(s, a[0]), a[1..], c);
      assert (a + c)[1..] == a[1..] + c;
    }
  }

  // ----- the shell's handlers -----

  /** The module variables of the shell and the handlers that assign them. */
  class MainProcess {
    var launchGeneration: nat
    var stagedRecoveryGeneration: nat
    var isRecovering: bool
    var backendReadySignal: bool
    var port: Option<nat>
    var boots: seq<Boot>
    var rollbacks: seq<Rollback>
    var launchedCores: map<nat, Core>
    ghost var log: seq<Event>

    ghost function Snapshot(): Shell reads this {
      Shell(launchGeneration, stagedRecoveryGeneration, isRecovering, backendReadySignal, port, boots, rollbacks, launchedCores, log)
    }

    method RecoverFailedStagedCore(core: Core, generation: nat) returns (scheduled: bool)
      modifies this
      ensures scheduled == CanRollback(old(Snapshot()), core, generation)
      ensures Snapshot() == if scheduled then Schedule(old(Snapshot()), core, generation) else old(Snapshot())
    {
      if !ShouldRollback(core, backendReadySignal, isRecovering, stagedRecoveryGeneration == generation) {
        return false;
      }
      stagedRecoveryGeneration := generation;
      rollbacks := rollbacks + [Quarantining(generation)];
      log := log + [Scheduled(generation, launchGeneration, core.version)];
      return true;
    }

    /** The failure tail every boot sequence shares. */
    method FailBoot(core: Core, generation: nat)
      modifies this
      ensures Snapshot() == FailLaunch(old(Snapshot()), core, generation, true)
    {
      var scheduled := RecoverFailedStagedCore(core, generation);
      if scheduled { return; }
      if stagedRecoveryGeneration == generation { return; }
      log := log + [Reported(generation, launchGeneration)];
    }

    /** The bookkeeping of a launch, before anything is spawned. */
    method BeginGeneration(b: nat, core: Core)
      requires b < |boots| && boots[b].Preparing?
      modifies this
      ensures Snapshot() == Start(old(Snapshot()), b, core)
    {
      backendReadySignal := false;
      launchGeneration := launchGeneration + 1;
      launchedCores := launchedCores[launchGeneration := core];
      if boots[b].exclusive { isRecovering := false; }
      boots := boots[b := Waiting(launchGeneration, core)];
      log := log + [Started(launchGeneration, b, core)];
    }

    /** `startBackend` on behalf of boot sequence `b`. */
    method StartBackend(b: nat, resolved: Core, spawned: bool)
      requires b < |boots| && boots[b].Preparing?
      modifies this
      ensures Snapshot() == Next(old(Snapshot()), LaunchBackend(b, resolved, spawned))
    {
      hide FailLaunch;
      var core := if boots[b].override.Some? then boots[b].override.value else resolved;
      BeginGeneration(b, core);
      if !spawned {
        FailureTouchesLittle();
        FailBoot(core, launchGeneration);
        boots := boots[b := Ended];
      }
    }

    method OnExit(generation: nat, quitting: bool, reports: bool)
      requires generation in launchedCores
      modifies this
      ensures Snapshot() == Next(old(Snapshot()), ChildExit(generation, quitting, reports))
    {
      if generation != launchGeneration { return; }
      if quitting { return; }
      var scheduled := RecoverFailedStagedCore(launchedCores[generation], generation);
      if scheduled { return; }
      if stagedRecoveryGeneration == generation { return; }
      if isRecovering { return; }
      if reports { log := log + [Reported(generation, launchGeneration)]; }
    }

    /** A boot sequence resumes after its wait. */
    method AfterWait(b: nat, healthy: bool)
      requires b < |boots| && boots[b].Waiting?
      modifies this
      ensures Snapshot() == Next(old(Snapshot()), WaitEnds(b, healthy))
    {
      var generation, core := boots[b].generation, boots[b].core;
      if generation != launchGeneration {
        boots := boots[b := Ended];
        return;
      }
      if healthy && backendReadySignal {
        boots := boots[b := Adopting(generation, core)];
        log := log + [AdoptionBegun(generation, launchGeneration)];
      } else {
        FailBoot(core, generation);
        boots := boots[b := Ended];
      }
    }

    /** A rollback resumes once the failed child is gone. */
    method RelaunchBundle(r: nat, quitting: bool, bundled: string)
      requires r < |rollbacks| && rollbacks[r].Terminating?
      modifies this
      ensures Snapshot() == Next(old(Snapshot()), TerminateDone(r, quitting, bundled))
    {
      var generation := rollbacks[r].generation;
      rollbacks := rollbacks[r := Finished];
      if generation != launchGeneration { return; }
      if isRecovering || quitting { return; }
      isRecovering := true;
      var core := CoreResolver.Core(bundled, false, false);
      log := log + [Relaunched(generation, launchGeneration, |boots|, core)];
      boots := boots + [Opening(Some(core))];
    }

    /** A boot sequence has recorded the adoption of its core. */
    method AfterAdoption(b: nat)
      requires b < |boots| && boots[b].Adopting?
      modifies this
      ensures Snapshot() == Next(old(Snapshot()), AdoptionDone(b))
    {
      var generation := boots[b].generation;
      boots := boots[b := Ended];
      if port.None? { return; }
      log := log + [Loaded(generation, launchGeneration, port.value)];
    }
  }
}
