/**
 * The owner of supervisors and shells: opens, reopens and shutdowns are chained through one promise tail, while
 * retries, stop requests and the supervisors' own coroutines interleave with them freely.
 */
module ProjectControllers {
  import opened Basics
  import opened DaemonSupervision

  // ---------------------------------------------------------------- state

  datatype Body = Open(project: string) | Reopen | Shutdown

  /** What a teardown is part of: an open about to build, a failed open, or a shutdown. */
  datatype Then = Build(project: string) | Fail | Finish

  /** The await at which a running body is suspended. */
  datatype Pc =
    | StoppingOld(sup: nat, shell: Option<nat>, next: Then)
    | ClosingOld(closing: nat, next: Then)
    | TornDown(next: Then)
    | StartingDaemon(sup: nat, newShell: nat)
    | StartingShell(sup: nat, newShell: nat)

  /** A chained call: not begun, under way, or settled (rejected when not `ok`). */
  datatype JobState = Waiting | Running(pc: Pc) | Settled(ok: bool)

  datatype Job = Job(body: Body, state: JobState)

  /** A supervisor ever created; `stopTask` is the stop that its teardown awaits. */
  datatype Owned = Owned(sup: Sup, tornDown: bool, stopTask: nat)

  datatype Shell = Shell(startCalled: bool, closeCalled: bool, closed: bool)

  datatype Controller = Controller(supervisor: Option<nat>, shell: Option<nat>, project: Option<string>,
                                   owned: seq<Owned>, shells: seq<Shell>, jobs: seq<Job>)
  {
    function With(i: nat, state: JobState): Controller
      requires i < |jobs|
    {
      this.(jobs := jobs[i := jobs[i].(state := state)])
    }

    function WithSup(k: nat, sup: Sup): Controller
      requires k < |owned|
    {
      this.(owned := owned[k := owned[k].(sup := sup)])
    }
  }

  const INITIAL_CONTROLLER := Controller(None, None, None, [], [], [])

  /** The task of the first call on a fresh supervisor: the start that an open awaits. */
  const FIRST_START: nat := 0

  /** How the creation of a supervisor and a shell, or an awaited start, turns out. */
  datatype Outcome = Succeeds | FirstThrows | SecondThrows

  // ---------------------------------------------------------------- pieces of a step

  predicate InRange(c: Controller) {
    && (c.supervisor.Some? ==> c.supervisor.value < |c.owned|)
    && (c.shell.Some? ==> c.shell.value < |c.shells|)
    && (forall k: nat | k < |c.owned| :: Named(c.owned[k].sup))
    && (forall i: nat | i < |c.jobs| && c.jobs[i].state.Running? :: PcInRange(c, c.jobs[i].state.pc))
  }

  predicate PcInRange(c: Controller, pc: Pc) {
    match pc
    case StoppingOld(k, sh, _) => k < |c.owned| && (sh.Some? ==> sh.value < |c.shells|)
    case ClosingOld(sh, _) => sh < |c.shells|
    case TornDown(_) => true
    case StartingDaemon(k, sh) => k < |c.owned| && sh < |c.shells|
    case StartingShell(k, sh) => k < |c.owned| && sh < |c.shells|
  }

  /** `teardownActive` up to its first await: the fields are cleared before anything is awaited. */
  function BeginTeardown(c: Controller, i: nat, next: Then): Controller
    requires i < |c.jobs| && InRange(c)
  {
    var cleared := c.(supervisor := None, shell := None);
    if c.supervisor.Some? then
      var k := c.supervisor.value;
      var stopped := Owned(CallStop(c.owned[k].sup, None), true, c.owned[k].sup.nextTask);
      cleared.(owned := c.owned[k := stopped]).With(i, Running(StoppingOld(k, c.shell, next)))
    else if c.shell.Some? then
      CloseShell(cleared, i, c.shell.value, next)
    else cleared.With(i, Running(TornDown(next)))
  }

  function CloseShell(c: Controller, i: nat, sh: nat, next: Then): Controller
    requires i < |c.jobs| && sh < |c.shells|
  {
    c.(shells := c.shells[sh := c.shells[sh].(closeCalled := true)]).With(i, Running(ClosingOld(sh, next)))
  }

  /** The open body after its teardown: create the pair and start the daemon. */
  function BuildPair(c: Controller, i: nat, project: string, outcome: Outcome, cfg: Config): Controller
    requires i < |c.jobs| && InRange(c) && cfg.Valid()
  {
    var bound := c.(project := Some(project));
    if outcome == FirstThrows then BeginTeardown(bound, i, Fail)
    else
      var k, sh := |c.owned|, |c.shells|;
      var created := bound.(owned := c.owned + [Owned(INITIAL_SUP, false, 0)], supervisor := Some(k));
      if outcome == SecondThrows then BeginTeardown(created, i, Fail)
      else created.(shells := c.shells + [Shell(false, false, false)], shell := Some(sh))
           .WithSup(k, CallStart(INITIAL_SUP, project, cfg)).With(i, Running(StartingDaemon(k, sh)))
  }

  // ---------------------------------------------------------------- steps

  datatype ControllerEvent =
    | Ask(body: Body)                       // openProject, reopenCurrentProject or shutdown is called
    | Begin(i: nat)                         // the tail before the call has settled and its body starts
    | Advance(i: nat, outcome: Outcome)     // the await of a running body settles
    | Retry | RequestStop | ShowNoProject
    | Inside(k: nat, e: Event)              // a supervisor's coroutine, process or timer acts

  predicate MayBegin(jobs: seq<Job>, i: nat) {
    i < |jobs| && jobs[i].state.Waiting? && (i == 0 || jobs[i - 1].state.Settled?)
  }

  function BeginBody(c: Controller, i: nat): Controller
    requires i < |c.jobs| && InRange(c)
  {
    match c.jobs[i].body
    case Open(project) => BeginTeardown(c, i, Build(project))
    case Reopen => if c.project.None? then c.With(i, Settled(true)) else BeginTeardown(c, i, Build(c.project.value))
    case Shutdown => BeginTeardown(c, i, Finish)
  }

  function AdvanceBody(c: Controller, i: nat, outcome: Outcome, cfg: Config): Controller
    requires i < |c.jobs| && c.jobs[i].state.Running? && InRange(c) && cfg.Valid()
  {
    match c.jobs[i].state.pc
    case StoppingOld(k, sh, next) =>
      if c.owned[k].stopTask in c.owned[k].sup.tasks then c
      else if sh.Some? then CloseShell(c, i, sh.value, next)
      else c.With(i, Running(TornDown(next)))
    case ClosingOld(sh, next) =>
      c.(shells := c.shells[sh := c.shells[sh].(closeCalled := true, closed := true)]).With(i, Running(TornDown(next)))
    case TornDown(Build(project)) => BuildPair(c, i, project, outcome, cfg)
    case TornDown(Fail) => c.(project := None).With(i, Settled(false))
    case TornDown(Finish) => c.With(i, Settled(true))
    case StartingDaemon(k, sh) =>
      if FIRST_START in c.owned[k].sup.tasks then c
      else if outcome == Succeeds then
        c.(shells := c.shells[sh := c.shells[sh].(startCalled := true)]).With(i, Running(StartingShell(k, sh)))
      else BeginTeardown(c, i, Fail)
    case StartingShell(k, sh) =>
      if outcome == Succeeds then c.With(i, Settled(true)) else BeginTeardown(c, i, Fail)
  }

  /** A supervisor's own events; the calls to it are the controller's. */
  predicate IsInternal(e: Event) { e.ChildExit? || e.ChildError? || e.Resume? }

  function ControllerStep(c: Controller, e: ControllerEvent, cfg: Config): Controller
    requires InRange(c) && cfg.Valid()
  {
    match e
    case Ask(body) => c.(jobs := c.jobs + [Job(body, Waiting)])
    case Begin(i) => if MayBegin(c.jobs, i) then BeginBody(c, i) else c
    case Advance(i, outcome) => if i < |c.jobs| && c.jobs[i].state.Running? then AdvanceBody(c, i, outcome, cfg) else c
    case Retry =>
      if c.supervisor.None? || c.project.None? then c
      else c.WithSup(c.supervisor.value, CallStart(c.owned[c.supervisor.value].sup, c.project.value, cfg))
    case RequestStop =>
      if c.supervisor.None? then c
      else c.WithSup(c.supervisor.value, CallStop(c.owned[c.supervisor.value].sup, None))
    case ShowNoProject => c.(project := None)
    case Inside(k, e) =>
      if k < |c.owned| && IsInternal(e) then c.WithSup(k, Step(c.owned[k].sup, e, cfg)) else c
  }

  // ---------------------------------------------------------------- the invariant

  /** No stop of this supervisor goes on to start. */
  ghost predicate NeverRestarts(sup: Sup) {
    forall id <- sup.tasks :: sup.tasks[id].IsStop() ==> sup.tasks[id].thenStart.None?
  }

  ghost predicate OwnedSound(o: Owned, live: bool, cfg: Config) {
    && Inv(o.sup, cfg) && NeverRestarts(o.sup)
    && (o.tornDown <==> !live)
    && (o.tornDown ==> Quiet(o.sup) && o.stopTask < o.sup.nextTask)
  }

  /** The supervisor is the live one, or its teardown's stop has settled. */
  predicate SupSettled(o: Owned, live: bool) {
    live || o.stopTask !in o.sup.tasks
  }

  predicate ShellSettled(sh: Shell, live: bool) {
    if live then !sh.closeCalled && !sh.closed else sh.closeCalled && sh.closed
  }

  ghost predicate AllSettledBut(c: Controller, sup: Option<nat>, shell: Option<nat>) {
    && (forall k: nat | k < |c.owned| && sup != Some(k) :: SupSettled(c.owned[k], c.supervisor == Some(k)))
    && (forall s: nat | s < |c.shells| && shell != Some(s) :: ShellSettled(c.shells[s], c.shell == Some(s)))
  }

  ghost predicate PcSound(c: Controller, pc: Pc) {
    match pc
    case StoppingOld(k, sh, _) => c.supervisor.None? && c.shell.None? && AllSettledBut(c, Some(k), sh)
    case ClosingOld(sh, _) => c.supervisor.None? && c.shell.None? && AllSettledBut(c, None, Some(sh))
    case TornDown(_) => c.supervisor.None? && c.shell.None? && AllSettledBut(c, None, None)
    case StartingDaemon(k, sh) =>
      && c.supervisor == Some(k) && c.shell == Some(sh) && AllSettledBut(c, None, None)
      && k < |c.owned| && FIRST_START < c.owned[k].sup.nextTask
    case StartingShell(k, sh) =>
      && c.supervisor == Some(k) && c.shell == Some(sh) && AllSettledBut(c, None, None)
      && k < |c.owned| && FIRST_START < c.owned[k].sup.nextTask
  }

  /** Bodies begin in call order, each after the one before has settled. */
  ghost predicate InOrder(jobs: seq<Job>) {
    forall i: nat, j: nat | i < j < |jobs| && !jobs[j].state.Waiting? :: jobs[i].state.Settled?
  }

  ghost predicate NoneRunning(jobs: seq<Job>) {
    forall i: nat | i < |jobs| :: !jobs[i].state.Running?
  }

  ghost predicate ControllerInv(c: Controller, cfg: Config) {
    && InRange(c)
    && InOrder(c.jobs)
    && (forall k: nat | k < |c.owned| :: OwnedSound(c.owned[k], c.supervisor == Some(k), cfg))
    && (forall i: nat | i < |c.jobs| && c.jobs[i].state.Running? :: PcSound(c, c.jobs[i].state.pc))
    && (NoneRunning(c.jobs) ==> AllSettledBut(c, None, None))
  }

  lemma InitialControllerInv(cfg: Config)
    ensures ControllerInv(INITIAL_CONTROLLER, cfg)
  {
  }

  // ---------------------------------------------------------------- supervisors under a controller

  lemma StopUnderController(sup: Sup, cfg: Config)
    requires cfg.Valid() && Inv(sup, cfg) && NeverRestarts(sup)
    ensures var s := CallStop(sup, None);
            Inv(s, cfg) && NeverRestarts(s) && Quiet(s) && sup.nextTask < s.nextTask && Named(s)
  {
    hide TasksInv, BudgetInv, RespawnsSince;
    CallStopKeepsInv(sup, None, cfg);
    StopMakesQuiet(sup, None, cfg);
    InvNames(CallStop(sup, None), cfg);
  }

  lemma StartUnderController(sup: Sup, project: string, cfg: Config)
    requires cfg.Valid() && Inv(sup, cfg) && NeverRestarts(sup)
    ensures var s := CallStart(sup, project, cfg);
            Inv(s, cfg) && NeverRestarts(s) && Named(s) && sup.nextTask <= s.nextTask
  {
    hide TasksInv, BudgetInv, RespawnsSince;
    CallStartKeepsInv(sup, project, cfg);
    InvNames(CallStart(sup, project, cfg), cfg);
  }

  lemma StartNeverRestarts(sup: Sup, id: nat, ok: bool, cfg: Config)
    requires cfg.Valid() && Named(sup) && NeverRestarts(sup) && id in sup.tasks
    requires sup.tasks[id].IsStart()
    ensures NeverRestarts(ResumeTask(sup, id, ok, cfg))
  {
    hide BackoffMs, WaitAt, ResumeWait, Config.Polls, CallStart, LoopHead, Named;
  }

  lemma RestartNeverRestarts(sup: Sup, id: nat, ok: bool, cfg: Config)
    requires cfg.Valid() && Named(sup) && NeverRestarts(sup) && id in sup.tasks
    requires sup.tasks[id].IsRestart()
    ensures NeverRestarts(ResumeTask(sup, id, ok, cfg))
  {
    hide BackoffMs, WaitAt, ResumeWait, Config.Polls, CallStart, Named, Sup.Current;
  }

  lemma StopNeverRestarts(sup: Sup, id: nat, ok: bool, cfg: Config)
    requires cfg.Valid() && Named(sup) && NeverRestarts(sup) && id in sup.tasks
    requires sup.tasks[id].IsStop()
    ensures NeverRestarts(ResumeTask(sup, id, ok, cfg))
  {
    hide BackoffMs, Config.Polls, CallStart, LoopHead, Named;
  }

  lemma InternalNeverRestarts(sup: Sup, e: Event, cfg: Config)
    requires cfg.Valid() && Named(sup) && NeverRestarts(sup) && IsInternal(e)
    ensures NeverRestarts(Step(sup, e, cfg))
  {
    hide ResumeTask, BackoffMs, Named;
    if e.Resume? && e.id in sup.tasks {
      var task := sup.tasks[e.id];
      if task.IsStop() { StopNeverRestarts(sup, e.id, e.ok, cfg); }
      else if task.IsRestart() { RestartNeverRestarts(sup, e.id, e.ok, cfg); }
      else { StartNeverRestarts(sup, e.id, e.ok, cfg); }
    }
  }

  lemma InternalUnderController(o: Owned, live: bool, e: Event, cfg: Config)
    requires cfg.Valid() && OwnedSound(o, live, cfg) && IsInternal(e)
    ensures Named(o.sup) && OwnedSound(o.(sup := Step(o.sup, e, cfg)), live, cfg)
    ensures SupSettled(o, live) ==> SupSettled(o.(sup := Step(o.sup, e, cfg)), live)
  {
    hide Inv, Quiet, Step;
    InvNames(o.sup, cfg);
    StepKeepsInv(o.sup, e, cfg);
    InternalNeverRestarts(o.sup, e, cfg);
    if o.tornDown {
      QuietStep(o.sup, e, cfg);
      InternalNextTask(o.sup, e, cfg);
      if o.stopTask !in o.sup.tasks {
        InternalKeepsAbsent(o.sup, e, o.stopTask, cfg);
      }
    }
  }

  lemma InternalNextTask(s: Sup, e: Event, cfg: Config)
    requires cfg.Valid() && Inv(s, cfg)
    ensures s.nextTask <= Step(s, e, cfg).nextTask
  {
    hide TasksInv, BudgetInv, RespawnsSince, BackoffMs, ChildSound, ResumeTask;
    if e.Resume? && e.id in s.tasks { EndedStaysEnded(s, e.ok, e.id, cfg); }
  }

  lemma InternalKeepsAbsent(s: Sup, e: Event, id: nat, cfg: Config)
    requires cfg.Valid() && Inv(s, cfg) && id < s.nextTask && id !in s.tasks
    ensures id !in Step(s, e, cfg).tasks
  {
    hide TasksInv, BudgetInv, RespawnsSince;
    if !(e.Resume? && e.id == id) { OthersUndisturbed(s, e, id, cfg); }
  }

  lemma FreshSupervisor(project: string, cfg: Config)
    requires cfg.Valid()
    ensures Inv(INITIAL_SUP, cfg) && NeverRestarts(INITIAL_SUP) && Named(INITIAL_SUP)
    ensures Inv(CallStart(INITIAL_SUP, project, cfg), cfg) && NeverRestarts(CallStart(INITIAL_SUP, project, cfg))
    ensures Named(CallStart(INITIAL_SUP, project, cfg)) && FIRST_START < CallStart(INITIAL_SUP, project, cfg).nextTask
  {
    InvInitial(cfg);
    StartUnderController(INITIAL_SUP, project, cfg);
  }

  // ---------------------------------------------------------------- steps keep the invariant

  ghost predicate OwnersSound(c: Controller, cfg: Config) {
    && (c.supervisor.Some? ==> c.supervisor.value < |c.owned|)
    && (c.shell.Some? ==> c.shell.value < |c.shells|)
    && (forall k: nat | k < |c.owned| :: Named(c.owned[k].sup) && OwnedSound(c.owned[k], c.supervisor == Some(k), cfg))
  }

  /** Every body before this one has settled and none after it has begun. */
  ghost predicate AtTurn(jobs: seq<Job>, i: nat) {
    && i < |jobs|
    && (forall j: nat | j < i :: jobs[j].state.Settled?)
    && (forall j: nat | i < j < |jobs| :: jobs[j].state.Waiting?)
  }

  lemma TurnOf(jobs: seq<Job>, i: nat)
    requires InOrder(jobs) && i < |jobs|
    requires jobs[i].state.Running? || MayBegin(jobs, i)
    ensures AtTurn(jobs, i)
  {
  }

  lemma WithKeepsControllerInv(c: Controller, i: nat, state: JobState, cfg: Config)
    requires AtTurn(c.jobs, i) && OwnersSound(c, cfg)
    requires if state.Running? then PcInRange(c, state.pc) && PcSound(c, state.pc) else AllSettledBut(c, None, None)
    ensures ControllerInv(c.With(i, state), cfg)
  {
    hide OwnedSound, Named, SupSettled, ShellSettled;
    var d := c.With(i, state);
    assert forall j: nat | j < |d.jobs| && j != i :: d.jobs[j] == c.jobs[j];
    assert d.jobs[i].state == state;
  }

  lemma BeginTeardownKeepsInv(c: Controller, i: nat, next: Then, cfg: Config)
    requires cfg.Valid() && InRange(c) && AtTurn(c.jobs, i) && OwnersSound(c, cfg) && AllSettledBut(c, None, None)
    ensures ControllerInv(BeginTeardown(c, i, next), cfg)
  {
    hide Inv, Quiet, CallStop, NeverRestarts;
    var cleared := c.(supervisor := None, shell := None);
    if c.supervisor.Some? {
      var k := c.supervisor.value;
      StopUnderController(c.owned[k].sup, cfg);
      var stopped := Owned(CallStop(c.owned[k].sup, None), true, c.owned[k].sup.nextTask);
      var d := cleared.(owned := c.owned[k := stopped]);
      WithKeepsControllerInv(d, i, Running(StoppingOld(k, c.shell, next)), cfg);
    } else if c.shell.Some? {
      CloseShellKeepsInv(cleared, i, c.shell.value, next, cfg);
    } else {
      WithKeepsControllerInv(cleared, i, Running(TornDown(next)), cfg);
    }
  }

  lemma CloseShellKeepsInv(c: Controller, i: nat, sh: nat, next: Then, cfg: Config)
    requires cfg.Valid() && AtTurn(c.jobs, i) && OwnersSound(c, cfg) && sh < |c.shells|
    requires c.supervisor.None? && c.shell.None? && AllSettledBut(c, None, Some(sh))
    ensures ControllerInv(CloseShell(c, i, sh, next), cfg)
  {
    hide OwnedSound, Named;
    var d := c.(shells := c.shells[sh := c.shells[sh].(closeCalled := true)]);
    WithKeepsControllerInv(d, i, Running(ClosingOld(sh, next)), cfg);
  }

  lemma BuildPairKeepsInv(c: Controller, i: nat, project: string, outcome: Outcome, cfg: Config)
    requires cfg.Valid() && InRange(c) && AtTurn(c.jobs, i) && OwnersSound(c, cfg)
    requires c.supervisor.None? && c.shell.None? && AllSettledBut(c, None, None)
    ensures ControllerInv(BuildPair(c, i, project, outcome, cfg), cfg)
  {
    hide Inv, CallStart, NeverRestarts, Named, Quiet;
    var bound := c.(project := Some(project));
    if outcome == FirstThrows {
      BeginTeardownKeepsInv(bound, i, Fail, cfg);
    } else {
      FreshSupervisor(project, cfg);
      var k, sh := |c.owned|, |c.shells|;
      var created := bound.(owned := c.owned + [Owned(INITIAL_SUP, false, 0)], supervisor := Some(k));
      if outcome == SecondThrows {
        assert InRange(created);
        BeginTeardownKeepsInv(created, i, Fail, cfg);
      } else {
        var d := created.(shells := c.shells + [Shell(false, false, false)], shell := Some(sh))
                 .WithSup(k, CallStart(INITIAL_SUP, project, cfg));
        WithKeepsControllerInv(d, i, Running(StartingDaemon(k, sh)), cfg);
      }
    }
  }

  lemma AdvanceKeepsInv(c: Controller, i: nat, outcome: Outcome, cfg: Config)
    requires cfg.Valid() && ControllerInv(c, cfg) && i < |c.jobs| && c.jobs[i].state.Running?
    ensures ControllerInv(AdvanceBody(c, i, outcome, cfg), cfg)
  {
    hide Inv, NeverRestarts, Named, Quiet, BeginTeardown, BuildPair, CloseShell;
    TurnOf(c.jobs, i);
    match c.jobs[i].state.pc {
      case StoppingOld(k, sh, next) =>
        if c.owned[k].stopTask !in c.owned[k].sup.tasks {
          if sh.Some? { CloseShellKeepsInv(c, i, sh.value, next, cfg); }
          else { WithKeepsControllerInv(c, i, Running(TornDown(next)), cfg); }
        }
      case ClosingOld(sh, next) =>
        var closed := c.(shells := c.shells[sh := c.shells[sh].(closeCalled := true, closed := true)]);
        WithKeepsControllerInv(closed, i, Running(TornDown(next)), cfg);
      case TornDown(Build(project)) => BuildPairKeepsInv(c, i, project, outcome, cfg);
      case TornDown(Fail) => WithKeepsControllerInv(c.(project := None), i, Settled(false), cfg);
      case TornDown(Finish) => WithKeepsControllerInv(c, i, Settled(true), cfg);
      case StartingDaemon(k, sh) =>
        if FIRST_START !in c.owned[k].sup.tasks {
          if outcome == Succeeds {
            var started := c.(shells := c.shells[sh := c.shells[sh].(startCalled := true)]);
            WithKeepsControllerInv(started, i, Running(StartingShell(k, sh)), cfg);
          }
          else { BeginTeardownKeepsInv(c, i, Fail, cfg); }
        }
      case StartingShell(k, sh) =>
        if outcome == Succeeds { WithKeepsControllerInv(c, i, Settled(true), cfg); }
        else { BeginTeardownKeepsInv(c, i, Fail, cfg); }
    }
  }

  lemma BeginKeepsInv(c: Controller, i: nat, cfg: Config)
    requires cfg.Valid() && ControllerInv(c, cfg) && MayBegin(c.jobs, i)
    ensures ControllerInv(BeginBody(c, i), cfg)
  {
    hide Inv, NeverRestarts, Named, Quiet, BeginTeardown;
    TurnOf(c.jobs, i);
    match c.jobs[i].body {
      case Open(project) => BeginTeardownKeepsInv(c, i, Build(project), cfg);
      case Reopen =>
        if c.project.None? { WithKeepsControllerInv(c, i, Settled(true), cfg); }
        else { BeginTeardownKeepsInv(c, i, Build(c.project.value), cfg); }
      case Shutdown => BeginTeardownKeepsInv(c, i, Finish, cfg);
    }
  }

  /** A supervisor changes in a way that keeps it sound and does not bring its awaited stop back. */
  lemma WithSupKeepsInv(c: Controller, k: nat, sup: Sup, cfg: Config)
    requires cfg.Valid() && ControllerInv(c, cfg) && k < |c.owned| && Named(sup)
    requires c.owned[k].sup.nextTask <= sup.nextTask
    requires OwnedSound(c.owned[k].(sup := sup), c.supervisor == Some(k), cfg)
    requires SupSettled(c.owned[k], c.supervisor == Some(k)) ==>
               SupSettled(c.owned[k].(sup := sup), c.supervisor == Some(k))
    ensures ControllerInv(c.WithSup(k, sup), cfg)
  {
    hide OwnedSound, Named, SupSettled, ShellSettled;
    var d := c.WithSup(k, sup);
    assert forall j: nat | j < |c.owned| && j != k :: d.owned[j] == c.owned[j];
    assert AllSettledBut(c, None, None) ==> AllSettledBut(d, None, None);
    forall i: nat | i < |c.jobs| && c.jobs[i].state.Running?
      ensures PcInRange(d, d.jobs[i].state.pc) && PcSound(d, d.jobs[i].state.pc)
    {
    }
  }

  lemma ControllerStepKeepsInv(c: Controller, e: ControllerEvent, cfg: Config)
    requires cfg.Valid() && ControllerInv(c, cfg)
    ensures ControllerInv(ControllerStep(c, e, cfg), cfg)
  {
    hide Inv, NeverRestarts, Quiet, BeginBody, AdvanceBody, CallStart, CallStop, Step;
    match e {
      case Ask(body) => AskKeepsInv(c, body, cfg);
      case Begin(i) => if MayBegin(c.jobs, i) { BeginKeepsInv(c, i, cfg); }
      case Advance(i, outcome) => if i < |c.jobs| && c.jobs[i].state.Running? { AdvanceKeepsInv(c, i, outcome, cfg); }
      case Retry =>
        if c.supervisor.Some? && c.project.Some? {
          var k := c.supervisor.value;
          StartUnderController(c.owned[k].sup, c.project.value, cfg);
          WithSupKeepsInv(c, k, CallStart(c.owned[k].sup, c.project.value, cfg), cfg);
        }
      case RequestStop =>
        if c.supervisor.Some? {
          var k := c.supervisor.value;
          StopUnderController(c.owned[k].sup, cfg);
          WithSupKeepsInv(c, k, CallStop(c.owned[k].sup, None), cfg);
        }
      case ShowNoProject =>
      case Inside(k, inner) =>
        if k < |c.owned| && IsInternal(inner) {
          InternalUnderController(c.owned[k], c.supervisor == Some(k), inner, cfg);
          InternalNextTask(c.owned[k].sup, inner, cfg);
          StepNames(c.owned[k].sup, inner, cfg);
          WithSupKeepsInv(c, k, Step(c.owned[k].sup, inner, cfg), cfg);
        }
    }
  }

  lemma StepNames(sup: Sup, e: Event, cfg: Config)
    requires cfg.Valid() && Inv(sup, cfg)
    ensures Named(sup) && Named(Step(sup, e, cfg))
  {
    hide Step, Inv, Named;
    InvNames(sup, cfg);
    StepKeepsInv(sup, e, cfg);
    InvNames(Step(sup, e, cfg), cfg);
  }

  lemma AskKeepsInv(c: Controller, body: Body, cfg: Config)
    requires cfg.Valid() && ControllerInv(c, cfg)
    ensures ControllerInv(c.(jobs := c.jobs + [Job(body, Waiting)]), cfg)
  {
    hide OwnedSound, Named, SupSettled, ShellSettled;
    var d := c.(jobs := c.jobs + [Job(body, Waiting)]);
    assert d.jobs[|c.jobs|].state == Waiting;
    assert forall i: nat | i < |c.jobs| :: d.jobs[i] == c.jobs[i];
  }

  // ---------------------------------------------------------------- runs

  function RunController(c: Controller, events: seq<ControllerEvent>, cfg: Config): Controller
    requires cfg.Valid()
    decreases |events|
  {
    if events == [] || !InRange(c) then c else RunController(ControllerStep(c, events[0], cfg), events[1..], cfg)
  }

  lemma {:induction false} RunKeepsControllerInv(c: Controller, events: seq<ControllerEvent>, cfg: Config)
    requires cfg.Valid() && ControllerInv(c, cfg)
    ensures ControllerInv(RunController(c, events, cfg), cfg)
    decreases |events|
  {
    hide ControllerInv, ControllerStep;
    if events != [] {
      InvGivesRange(c, cfg);
      ControllerStepKeepsInv(c, events[0], cfg);
      RunKeepsControllerInv(ControllerStep(c, events[0], cfg), events[1..], cfg);
    }
  }

  lemma InvGivesRange(c: Controller, cfg: Config)
    requires ControllerInv(c, cfg)
    ensures InRange(c)
  {
  }

  /** A process that is neither known to be gone nor being terminated. */
  predicate Unattended(c: Controller, k: nat, p: nat) {
    && k < |c.owned| && p < |c.owned[k].sup.children|
    && !c.owned[k].sup.children[p].gone && !c.owned[k].sup.children[p].terminating
  }

  /**
   * In every reachable state: bodies have begun in call order and at most one has not settled; every supervisor but the
   * live one has been stopped; and over all supervisors at most one process is unattended, the live one's.
   */
  lemma ProjectsAreExclusive(events: seq<ControllerEvent>, cfg: Config)
    requires cfg.Valid()
    ensures var c := RunController(INITIAL_CONTROLLER, events, cfg);
            && (forall i: nat, j: nat | i < j < |c.jobs| && !c.jobs[j].state.Waiting? :: c.jobs[i].state.Settled?)
            && (forall k: nat | k < |c.owned| && c.supervisor != Some(k) ::
                  c.owned[k].tornDown && Quiet(c.owned[k].sup))
            && (forall k: nat, p: nat, l: nat, q: nat | Unattended(c, k, p) && Unattended(c, l, q) ::
                  k == l && p == q && c.supervisor == Some(k))
  {
    InitialControllerInv(cfg);
    RunKeepsControllerInv(INITIAL_CONTROLLER, events, cfg);
    var c := RunController(INITIAL_CONTROLLER, events, cfg);
    forall k: nat, p: nat | Unattended(c, k, p)
      ensures c.supervisor == Some(k) && c.owned[k].sup.child == Some(p)
    {
      UnattendedIsLive(c, k, p, cfg);
    }
  }

  lemma UnattendedIsLive(c: Controller, k: nat, p: nat, cfg: Config)
    requires ControllerInv(c, cfg) && Unattended(c, k, p)
    ensures c.supervisor == Some(k) && c.owned[k].sup.child == Some(p)
  {
    hide TasksInv, BudgetInv, NeverRestarts, AllSettledBut;
    var o := c.owned[k];
    assert OwnedSound(o, c.supervisor == Some(k), cfg);
    assert ChildSound(o.sup.children[p], o.sup.child == Some(p), o.sup.generation, o.sup.stopping);
  }

  /** Only an open whose teardown is over creates anything. */
  lemma OnlyBuildsGrow(c: Controller, e: ControllerEvent, cfg: Config)
    requires cfg.Valid() && InRange(c)
    requires |ControllerStep(c, e, cfg).owned| > |c.owned| || |ControllerStep(c, e, cfg).shells| > |c.shells|
    ensures e.Advance? && e.i < |c.jobs| && c.jobs[e.i].state.Running? && c.jobs[e.i].state.pc.TornDown?
  {
    hide CallStart, CallStop, Step, Named;
  }

  /** A supervisor or shell is created only once every earlier one has settled its stop and its close. */
  lemma PairBuiltAfterTeardown(events: seq<ControllerEvent>, e: ControllerEvent, cfg: Config)
    requires cfg.Valid()
    ensures var c := RunController(INITIAL_CONTROLLER, events, cfg);
            InRange(c)
            && var d := ControllerStep(c, e, cfg);
               |d.owned| > |c.owned| || |d.shells| > |c.shells| ==>
                 && (forall k: nat | k < |c.owned| ::
                       c.owned[k].tornDown && c.owned[k].stopTask !in c.owned[k].sup.tasks)
                 && (forall s: nat | s < |c.shells| :: c.shells[s].closed)
  {
    hide OwnersSound, Inv, Quiet, NeverRestarts, ControllerStep, Named, InOrder;
    InitialControllerInv(cfg);
    RunKeepsControllerInv(INITIAL_CONTROLLER, events, cfg);
    var c := RunController(INITIAL_CONTROLLER, events, cfg);
    var d := ControllerStep(c, e, cfg);
    if |d.owned| > |c.owned| || |d.shells| > |c.shells| {
      OnlyBuildsGrow(c, e, cfg);
      assert PcSound(c, c.jobs[e.i].state.pc);
      forall k: nat | k < |c.owned|
        ensures c.owned[k].tornDown && c.owned[k].stopTask !in c.owned[k].sup.tasks
      {
        assert OwnedSound(c.owned[k], c.supervisor == Some(k), cfg);
        assert SupSettled(c.owned[k], false);
      }
      assert forall s: nat | s < |c.shells| :: ShellSettled(c.shells[s], false);
    }
  }

  // ---------------------------------------------------------------- a torn down supervisor spawns nothing

  lemma RetiredStep(c: Controller, e: ControllerEvent, k: nat, cfg: Config)
    requires cfg.Valid() && ControllerInv(c, cfg) && k < |c.owned| && c.owned[k].tornDown
    ensures var d := ControllerStep(c, e, cfg);
            k < |d.owned| && d.owned[k].tornDown && |d.owned[k].sup.children| == |c.owned[k].sup.children|
  {
    hide Inv, Quiet, NeverRestarts, CallStart, CallStop, Step, AllSettledBut, Named, PcSound, InOrder;
    assert OwnedSound(c.owned[k], c.supervisor == Some(k), cfg);
    if e.Inside? && e.k == k && IsInternal(e.e) {
      QuietStep(c.owned[k].sup, e.e, cfg) by {
        InternalDoesNotStart(c.owned[k].sup, e.e);
      }
    }
  }

  lemma InternalDoesNotStart(sup: Sup, e: Event)
    requires NeverRestarts(sup) && IsInternal(e)
    ensures !Starts(sup, e)
  {
  }

  /** Once torn down, a supervisor never spawns again, whatever is called or happens afterwards. */
  lemma {:induction false} RetiredNeverSpawns(c: Controller, events: seq<ControllerEvent>, k: nat, cfg: Config)
    requires cfg.Valid() && ControllerInv(c, cfg) && k < |c.owned| && c.owned[k].tornDown
    ensures var d := RunController(c, events, cfg);
            k < |d.owned| && d.owned[k].tornDown && |d.owned[k].sup.children| == |c.owned[k].sup.children|
    decreases |events|
  {
    hide ControllerInv, ControllerStep;
    if events != [] {
      InvGivesRange(c, cfg);
      RetiredStep(c, events[0], k, cfg);
      ControllerStepKeepsInv(c, events[0], cfg);
      RetiredNeverSpawns(ControllerStep(c, events[0], cfg), events[1..], k, cfg);
    }
  }

  // ---------------------------------------------------------------- no call is blocked

  function Unsettled(jobs: seq<Job>): nat {
    if jobs == [] then 0 else Unsettled(jobs[1..]) + (if jobs[0].state.Settled? then 0 else 1)
  }

  function PcRank(pc: Pc): nat {
    match pc
    case StoppingOld(_, _, next) => (if next.Build? then 5 else 0) + 3
    case ClosingOld(_, next) => (if next.Build? then 5 else 0) + 2
    case TornDown(next) => (if next.Build? then 5 else 0) + 1
    case StartingDaemon(_, _) => 5
    case StartingShell(_, _) => 4
  }

  function StateRank(state: JobState): nat {
    match state
    case Waiting => 9
    case Running(pc) => PcRank(pc)
    case Settled(_) => 0
  }

  /** The supervisor task that the body awaits, if it has not ended. */
  function Awaited(c: Controller, pc: Pc): Option<(nat, nat)>
    requires PcInRange(c, pc)
  {
    match pc
    case StoppingOld(k, _, _) =>
      if c.owned[k].stopTask in c.owned[k].sup.tasks then Some((k, c.owned[k].stopTask)) else None
    case StartingDaemon(k, _) => if FIRST_START in c.owned[k].sup.tasks then Some((k, FIRST_START)) else None
    case _ => None
  }

  /** Each settled await moves a body on, towards being settled, whichever way the await turns out. */
  lemma AdvanceLowersRank(c: Controller, i: nat, outcome: Outcome, cfg: Config)
    requires cfg.Valid() && InRange(c) && i < |c.jobs| && c.jobs[i].state.Running?
    requires Awaited(c, c.jobs[i].state.pc).None?
    ensures var d := AdvanceBody(c, i, outcome, cfg);
            && |d.jobs| == |c.jobs| && StateRank(d.jobs[i].state) < StateRank(c.jobs[i].state)
            && !d.jobs[i].state.Waiting?
            && forall j: nat | j < |c.jobs| && j != i :: d.jobs[j] == c.jobs[j]
  {
    hide CallStart, CallStop, Named;
  }

  lemma BeginLowersRank(c: Controller, i: nat, cfg: Config)
    requires cfg.Valid() && InRange(c) && MayBegin(c.jobs, i)
    ensures var d := BeginBody(c, i);
            && |d.jobs| == |c.jobs| && StateRank(d.jobs[i].state) < StateRank(c.jobs[i].state)
            && !d.jobs[i].state.Waiting?
            && forall j: nat | j < |c.jobs| && j != i :: d.jobs[j] == c.jobs[j]
  {
    hide CallStart, CallStop, Named;
  }

  lemma {:induction false} UnsettledAt(before: seq<Job>, after: seq<Job>, i: nat)
    requires |before| == |after| && i < |before| && !before[i].state.Settled?
    requires forall j: nat | j < |before| && j != i :: before[j] == after[j]
    ensures Unsettled(after) == Unsettled(before) - (if after[i].state.Settled? then 1 else 0)
  {
    if i == 0 {
      assert before[1..] == after[1..];
    } else {
      UnsettledAt(before[1..], after[1..], i - 1);
    }
  }

  /** Every call has settled. */
  predicate AllDone(jobs: seq<Job>) {
    forall i: nat | i < |jobs| :: jobs[i].state.Settled?
  }

  /** The first call that has not settled. */
  function FirstUnsettled(jobs: seq<Job>): (i: nat)
    requires !AllDone(jobs)
    ensures i < |jobs| && !jobs[i].state.Settled? && forall j: nat | j < i :: jobs[j].state.Settled?
  {
    if !jobs[0].state.Settled? then 0
    else
      assert forall j: nat | j < |jobs| - 1 :: jobs[1..][j] == jobs[j + 1];
      FirstUnsettled(jobs[1..]) + 1
  }

  function AwaitRank(c: Controller, state: JobState, cfg: Config): nat
    requires cfg.Valid() && (state.Running? ==> PcInRange(c, state.pc))
  {
    if state.Running? && Awaited(c, state.pc).Some? then
      var (k, id) := Awaited(c, state.pc).value;
      Rank(c.owned[k].sup, c.owned[k].sup.tasks[id], cfg) + 1
    else 0
  }

  lemma ResumeAwaited(c: Controller, i: nat, ok: bool, cfg: Config)
    requires cfg.Valid() && ControllerInv(c, cfg) && i < |c.jobs| && c.jobs[i].state.Running?
    requires Awaited(c, c.jobs[i].state.pc).Some?
    ensures var (k, id) := Awaited(c, c.jobs[i].state.pc).value;
            var d := ControllerStep(c, Inside(k, Resume(id, ok)), cfg);
            && d.jobs == c.jobs && PcInRange(d, c.jobs[i].state.pc)
            && AwaitRank(d, c.jobs[i].state, cfg) < AwaitRank(c, c.jobs[i].state, cfg)
  {
    hide Inv, NeverRestarts, Quiet, Rank, ResumeTask;
    var (k, id) := Awaited(c, c.jobs[i].state.pc).value;
    assert OwnedSound(c.owned[k], c.supervisor == Some(k), cfg);
    ResumptionLowersRank(c.owned[k].sup, id, ok, cfg);
  }

  /** How the next await turns out, and what a probe that a supervisor awaits answers. */
  datatype Choice = Choice(outcome: Outcome, ok: bool)

  /** The next event that moves the first unsettled call on. */
  function NextEvent(c: Controller, i: nat, choice: Choice): ControllerEvent
    requires InRange(c) && i < |c.jobs|
  {
    var state := c.jobs[i].state;
    if !state.Running? then Begin(i)
    else if Awaited(c, state.pc).None? then Advance(i, choice.outcome)
    else
      var (k, id) := Awaited(c, state.pc).value;
      Inside(k, Resume(id, choice.ok))
  }

  lemma NextEventProgresses(c: Controller, i: nat, choice: Choice, cfg: Config)
    requires cfg.Valid() && ControllerInv(c, cfg) && AtTurn(c.jobs, i) && !c.jobs[i].state.Settled?
    ensures var d := ControllerStep(c, NextEvent(c, i, choice), cfg);
            && ControllerInv(d, cfg)
            && |d.jobs| == |c.jobs|
            && (forall j: nat | j < |c.jobs| && j != i :: d.jobs[j] == c.jobs[j])
            && (StateRank(d.jobs[i].state) < StateRank(c.jobs[i].state)
                || (d.jobs[i] == c.jobs[i] && AwaitRank(d, d.jobs[i].state, cfg) < AwaitRank(c, c.jobs[i].state, cfg)))
  {
    hide OwnersSound, OwnedSound, Named, BeginBody, AdvanceBody, Step, PcSound, AllSettledBut, Rank;
    ControllerStepKeepsInv(c, NextEvent(c, i, choice), cfg);
    var state := c.jobs[i].state;
    if !state.Running? { BeginLowersRank(c, i, cfg); }
    else if Awaited(c, state.pc).None? { AdvanceLowersRank(c, i, choice.outcome, cfg); }
    else { ResumeAwaited(c, i, choice.ok, cfg); }
  }

  /** Move the first unsettled call on for so many steps, each await turning out as the choices say. */
  function Drive(c: Controller, steps: nat, choices: nat -> Choice, cfg: Config): Controller
    requires cfg.Valid()
    decreases steps
  {
    if steps == 0 || !InRange(c) || AllDone(c.jobs) then c
    else
      var e := NextEvent(c, FirstUnsettled(c.jobs), choices(0));
      Drive(ControllerStep(c, e, cfg), steps - 1, (n: nat) => choices(n + 1), cfg)
  }

  /** How far the call at its turn still is from being settled. */
  function TurnRank(c: Controller, cfg: Config): (nat, nat)
    requires cfg.Valid() && InRange(c)
  {
    if AllDone(c.jobs) then (0, 0)
    else
      var state := c.jobs[FirstUnsettled(c.jobs)].state;
      (StateRank(state), AwaitRank(c, state, cfg))
  }

  lemma DriveStepLowers(c: Controller, choice: Choice, cfg: Config)
    requires cfg.Valid() && ControllerInv(c, cfg) && InRange(c) && !AllDone(c.jobs)
    ensures var d := ControllerStep(c, NextEvent(c, FirstUnsettled(c.jobs), choice), cfg);
            && ControllerInv(d, cfg) && InRange(d) && |d.jobs| == |c.jobs|
            && (|| Unsettled(d.jobs) < Unsettled(c.jobs)
                || (Unsettled(d.jobs) == Unsettled(c.jobs)
                    && (|| TurnRank(d, cfg).0 < TurnRank(c, cfg).0
                        || (TurnRank(d, cfg).0 == TurnRank(c, cfg).0 && TurnRank(d, cfg).1 < TurnRank(c, cfg).1))))
  {
    hide ControllerStep, NextEvent, AwaitRank, Unsettled, InRange, StateRank, ControllerInv;
    InvGivesOrder(c, cfg);
    var i := FirstUnsettled(c.jobs);
    FirstIsAtTurn(c.jobs);
    var d := ControllerStep(c, NextEvent(c, i, choice), cfg);
    NextEventProgresses(c, i, choice, cfg);
    InvGivesRange(d, cfg);
    UnsettledAt(c.jobs, d.jobs, i);
    if !d.jobs[i].state.Settled? { assert FirstUnsettled(d.jobs) == i; }
  }

  lemma FirstIsAtTurn(jobs: seq<Job>)
    requires InOrder(jobs) && !AllDone(jobs)
    ensures AtTurn(jobs, FirstUnsettled(jobs))
  {
  }

  lemma {:induction false} DriveSettles(c: Controller, choices: nat -> Choice, cfg: Config) returns (steps: nat)
    requires cfg.Valid() && ControllerInv(c, cfg) && InRange(c)
    ensures AllDone(Drive(c, steps, choices, cfg).jobs) && |Drive(c, steps, choices, cfg).jobs| == |c.jobs|
    decreases Unsettled(c.jobs), TurnRank(c, cfg).0, TurnRank(c, cfg).1
  {
    hide ControllerInv, NextEvent, ControllerStep, TurnRank, Unsettled, InRange;
    steps := 0;
    if !AllDone(c.jobs) {
      DriveStepLowers(c, choices(0), cfg);
      var d := ControllerStep(c, NextEvent(c, FirstUnsettled(c.jobs), choices(0)), cfg);
      var rest := DriveSettles(d, (n: nat) => choices(n + 1), cfg);
      steps := rest + 1;
    }
  }

  lemma InvGivesOrder(c: Controller, cfg: Config)
    requires ControllerInv(c, cfg)
    ensures InOrder(c.jobs)
  {
  }

  /**
   * No reachable state is stuck: however each await turns out and each probe answers, step by step, moving the first
   * unsettled call on settles every call already made, so also when every open is rejected.
   */
  lemma EveryCallCanSettle(before: seq<ControllerEvent>, choices: nat -> Choice, cfg: Config) returns (steps: nat)
    requires cfg.Valid()
    ensures var c := RunController(INITIAL_CONTROLLER, before, cfg);
            && AllDone(Drive(c, steps, choices, cfg).jobs) && |Drive(c, steps, choices, cfg).jobs| == |c.jobs|
  {
    hide ControllerInv, Drive;
    InitialControllerInv(cfg);
    RunKeepsControllerInv(INITIAL_CONTROLLER, before, cfg);
    var c := RunController(INITIAL_CONTROLLER, before, cfg);
    InvGivesRange(c, cfg);
    steps := DriveSettles(c, choices, cfg);
  }

  // ---------------------------------------------------------------- every call settles

  /** More than any awaited task's rank when it is first awaited. */
  function MoveSize(cfg: Config): nat
    requires cfg.Valid()
  {
    2 * cfg.Polls() + 6
  }

  /** An upper bound on how often a call at its turn has to be moved on before it settles. */
  function MovesLeft(c: Controller, i: nat, cfg: Config): nat
    requires cfg.Valid() && InRange(c) && i < |c.jobs|
  {
    StateRank(c.jobs[i].state) * MoveSize(cfg) + AwaitRank(c, c.jobs[i].state, cfg)
  }

  /** The event begins the call's body, settles what it awaits, or resumes the task it awaits. */
  predicate MovesOn(c: Controller, e: ControllerEvent, i: nat)
    requires InRange(c) && i < |c.jobs|
  {
    var state := c.jobs[i].state;
    match e
    case Begin(j) => j == i && MayBegin(c.jobs, i)
    case Advance(j, _) => j == i && state.Running? && Awaited(c, state.pc).None?
    case Inside(k, inner) => state.Running? && inner.Resume? && Awaited(c, state.pc) == Some((k, inner.id))
    case _ => false
  }

  lemma CallStopRank(sup: Sup, cfg: Config)
    requires cfg.Valid() && Named(sup)
    ensures var s := CallStop(sup, None);
            sup.nextTask in s.tasks && Rank(s, s.tasks[sup.nextTask], cfg) <= 4
  {
    hide RoundRank, Config.Polls;
  }

  lemma FirstStartRank(project: string, cfg: Config)
    requires cfg.Valid()
    ensures var s := CallStart(INITIAL_SUP, project, cfg);
            FIRST_START in s.tasks && Rank(s, s.tasks[FIRST_START], cfg) <= 2 * cfg.Polls() + 4
  {
    hide RoundRank;
  }

  lemma TeardownAwaitsLittle(c: Controller, i: nat, next: Then, cfg: Config)
    requires cfg.Valid() && InRange(c) && i < |c.jobs|
    requires forall k: nat | k < |c.owned| :: Named(c.owned[k].sup)
    ensures var d := BeginTeardown(c, i, next);
            |d.jobs| == |c.jobs| && (d.jobs[i].state.Running? ==> PcInRange(d, d.jobs[i].state.pc))
            && AwaitRank(d, d.jobs[i].state, cfg) < MoveSize(cfg)
  {
    hide CallStop, Rank, Config.Polls, Named;
    if c.supervisor.Some? {
      CallStopRank(c.owned[c.supervisor.value].sup, cfg) by { InRangeNames(c, c.supervisor.value); }
    }
  }

  lemma InRangeNames(c: Controller, k: nat)
    requires InRange(c) && k < |c.owned|
    ensures Named(c.owned[k].sup)
  {
  }

  lemma BuildAwaitsLittle(c: Controller, i: nat, project: string, outcome: Outcome, cfg: Config)
    requires cfg.Valid() && InRange(c) && i < |c.jobs|
    ensures var d := BuildPair(c, i, project, outcome, cfg);
            |d.jobs| == |c.jobs| && (d.jobs[i].state.Running? ==> PcInRange(d, d.jobs[i].state.pc))
            && AwaitRank(d, d.jobs[i].state, cfg) < MoveSize(cfg)
  {
    hide CallStart, CallStop, Rank, BeginTeardown;
    var bound := c.(project := Some(project));
    if outcome == FirstThrows {
      TeardownAwaitsLittle(bound, i, Fail, cfg);
    } else if outcome == SecondThrows {
      var created := bound.(owned := c.owned + [Owned(INITIAL_SUP, false, 0)], supervisor := Some(|c.owned|));
      assert Named(INITIAL_SUP);
      TeardownAwaitsLittle(created, i, Fail, cfg);
    } else {
      FirstStartRank(project, cfg);
    }
  }

  /** A body that begins or goes on awaits little at first. */
  lemma NextAwaitIsLittle(c: Controller, e: ControllerEvent, i: nat, cfg: Config)
    requires cfg.Valid() && ControllerInv(c, cfg) && InRange(c) && i < |c.jobs| && MovesOn(c, e, i) && !e.Inside?
    ensures var d := ControllerStep(c, e, cfg);
            |d.jobs| == |c.jobs| && (d.jobs[i].state.Running? ==> PcInRange(d, d.jobs[i].state.pc))
            && AwaitRank(d, d.jobs[i].state, cfg) < MoveSize(cfg)
  {
    hide Rank, BeginTeardown, BuildPair, Named, OwnedSound, PcSound;
    if e.Begin? {
      match c.jobs[i].body {
        case Open(project) => TeardownAwaitsLittle(c, i, Build(project), cfg);
        case Reopen => if c.project.Some? { TeardownAwaitsLittle(c, i, Build(c.project.value), cfg); }
        case Shutdown => TeardownAwaitsLittle(c, i, Finish, cfg);
      }
    } else {
      match c.jobs[i].state.pc {
        case TornDown(Build(project)) => BuildAwaitsLittle(c, i, project, e.outcome, cfg);
        case StartingDaemon(_, _) => TeardownAwaitsLittle(c, i, Fail, cfg);
        case StartingShell(_, _) => TeardownAwaitsLittle(c, i, Fail, cfg);
        case _ =>
      }
    }
  }

  /** An event on a supervisor other than resuming the task leaves its rank, and does not bring it back. */
  lemma OtherEventKeepsRank(s: Sup, e: Event, id: nat, cfg: Config)
    requires cfg.Valid() && Inv(s, cfg) && id < s.nextTask && !(e.Resume? && e.id == id)
    ensures Named(s)
    ensures var s' := Step(s, e, cfg);
            && (id in s'.tasks <==> id in s.tasks)
            && (id in s.tasks ==> Rank(s', s'.tasks[id], cfg) <= Rank(s, s.tasks[id], cfg))
  {
    hide Step, Rank, ChildrenInv, BudgetInv;
    InvNames(s, cfg);
    OthersUndisturbed(s, e, id, cfg);
    if id in s.tasks { UndisturbedRank(s, Step(s, e, cfg), id, cfg); }
  }

  /** The task that a body awaits has been begun. */
  lemma AwaitedWasBegun(c: Controller, i: nat, cfg: Config)
    requires ControllerInv(c, cfg) && InRange(c) && i < |c.jobs| && c.jobs[i].state.Running?
    ensures match c.jobs[i].state.pc
            case StoppingOld(k, _, _) => c.owned[k].stopTask < c.owned[k].sup.nextTask
            case StartingDaemon(k, _) => FIRST_START < c.owned[k].sup.nextTask
            case _ => true
  {
    hide Inv, NeverRestarts, Quiet, AllSettledBut;
    assert PcSound(c, c.jobs[i].state.pc);
    if c.jobs[i].state.pc.StoppingOld? {
      var k := c.jobs[i].state.pc.sup;
      assert OwnedSound(c.owned[k], c.supervisor == Some(k), cfg);
    }
  }

  /** A supervisor changes by one of its events, not the resumption of what the body awaits. */
  lemma SupChangeKeepsAwait(c: Controller, k: nat, e: Event, i: nat, cfg: Config)
    requires cfg.Valid() && ControllerInv(c, cfg) && InRange(c) && i < |c.jobs| && k < |c.owned|
    requires Named(c.owned[k].sup)
    requires c.jobs[i].state.Running? && e.Resume? ==> Awaited(c, c.jobs[i].state.pc) != Some((k, e.id))
    ensures var d := c.WithSup(k, Step(c.owned[k].sup, e, cfg));
            (c.jobs[i].state.Running? ==> PcInRange(d, c.jobs[i].state.pc))
            && AwaitRank(d, c.jobs[i].state, cfg) <= AwaitRank(c, c.jobs[i].state, cfg)
  {
    hide Step, Rank, Named;
    if c.jobs[i].state.Running? {
      AwaitedWasBegun(c, i, cfg);
      assert Inv(c.owned[k].sup, cfg) by { assert OwnedSound(c.owned[k], c.supervisor == Some(k), cfg); }
      match c.jobs[i].state.pc {
        case StoppingOld(j, _, _) =>
          if j == k && (e.Resume? ==> e.id != c.owned[k].stopTask) {
            OtherEventKeepsRank(c.owned[k].sup, e, c.owned[k].stopTask, cfg);
          } else if j == k {
            AbsentTaskStays(c.owned[k].sup, e, cfg);
          }
        case StartingDaemon(j, _) =>
          if j == k && (e.Resume? ==> e.id != FIRST_START) {
            OtherEventKeepsRank(c.owned[k].sup, e, FIRST_START, cfg);
          } else if j == k {
            AbsentTaskStays(c.owned[k].sup, e, cfg);
          }
        case _ =>
      }
    }
  }

  lemma AbsentTaskStays(s: Sup, e: Event, cfg: Config)
    requires cfg.Valid() && Named(s) && e.Resume?
    ensures e.id !in s.tasks ==> Step(s, e, cfg) == s
  {
  }

  /** An event that does not move the call on leaves it at its turn, with no more moves left. */
  lemma OtherEventsKeepMoves(c: Controller, e: ControllerEvent, i: nat, cfg: Config)
    requires cfg.Valid() && ControllerInv(c, cfg) && InRange(c) && AtTurn(c.jobs, i) && !c.jobs[i].state.Settled?
    requires !MovesOn(c, e, i)
    ensures var d := ControllerStep(c, e, cfg);
            && InRange(d) && AtTurn(d.jobs, i) && d.jobs[i] == c.jobs[i] && MovesLeft(d, i, cfg) <= MovesLeft(c, i, cfg)
  {
    hide Rank, BeginBody, AdvanceBody, ControllerInv, Step, CallStart, CallStop, Named, StateRank, MoveSize;
    ControllerStepKeepsInv(c, e, cfg);
    InvGivesRange(ControllerStep(c, e, cfg), cfg);
    match e {
      case Ask(_) =>
      case Begin(j) =>
      case Advance(j, outcome) => if j == i && c.jobs[i].state.Running? { BlockedStays(c, i, outcome, cfg); }
      case Retry =>
        if c.supervisor.Some? && c.project.Some? {
          SupCallKeepsAwait(c, StartCall(c.project.value), i, cfg);
          CallsAreSteps(c.owned[c.supervisor.value].sup, c.project.value, cfg);
        }
      case RequestStop =>
        if c.supervisor.Some? {
          SupCallKeepsAwait(c, StopCall, i, cfg);
          CallsAreSteps(c.owned[c.supervisor.value].sup, "", cfg);
        }
      case ShowNoProject =>
      case Inside(k, inner) =>
        if k < |c.owned| && IsInternal(inner) {
          InRangeNames(c, k);
          SupChangeKeepsAwait(c, k, inner, i, cfg);
        }
    }
  }

  lemma CallsAreSteps(s: Sup, project: string, cfg: Config)
    requires cfg.Valid() && Named(s)
    ensures Step(s, StartCall(project), cfg) == CallStart(s, project, cfg)
    ensures Step(s, StopCall, cfg) == CallStop(s, None)
  {
  }

  lemma BlockedStays(c: Controller, i: nat, outcome: Outcome, cfg: Config)
    requires cfg.Valid() && InRange(c) && i < |c.jobs| && c.jobs[i].state.Running?
    requires Awaited(c, c.jobs[i].state.pc).Some?
    ensures AdvanceBody(c, i, outcome, cfg) == c
  {
  }

  lemma SupCallKeepsAwait(c: Controller, e: Event, i: nat, cfg: Config)
    requires cfg.Valid() && ControllerInv(c, cfg) && InRange(c) && i < |c.jobs| && c.supervisor.Some? && !e.Resume?
    ensures var k := c.supervisor.value;
            k < |c.owned| && Named(c.owned[k].sup)
            && var d := c.WithSup(k, Step(c.owned[k].sup, e, cfg));
               (c.jobs[i].state.Running? ==> PcInRange(d, c.jobs[i].state.pc))
               && AwaitRank(d, c.jobs[i].state, cfg) <= AwaitRank(c, c.jobs[i].state, cfg)
  {
    hide ControllerInv, Step, Rank;
    InRangeNames(c, c.supervisor.value);
    SupChangeKeepsAwait(c, c.supervisor.value, e, i, cfg);
  }

  /** An event that moves the call on settles it or leaves fewer moves. */
  lemma MoveLowers(c: Controller, e: ControllerEvent, i: nat, cfg: Config)
    requires cfg.Valid() && ControllerInv(c, cfg) && InRange(c) && AtTurn(c.jobs, i) && !c.jobs[i].state.Settled?
    requires MovesOn(c, e, i)
    ensures var d := ControllerStep(c, e, cfg);
            InRange(d) && |d.jobs| == |c.jobs|
            && (d.jobs[i].state.Settled? || (AtTurn(d.jobs, i) && MovesLeft(d, i, cfg) < MovesLeft(c, i, cfg)))
  {
    hide Rank, BeginBody, AdvanceBody, ControllerInv, Step, MoveSize, StateRank;
    ControllerStepKeepsInv(c, e, cfg);
    var d := ControllerStep(c, e, cfg);
    InvGivesRange(d, cfg);
    if e.Inside? {
      ResumeAwaited(c, i, e.e.ok, cfg);
    } else {
      if e.Begin? { BeginLowersRank(c, i, cfg); } else { AdvanceLowersRank(c, i, e.outcome, cfg); }
      NextAwaitIsLittle(c, e, i, cfg);
      FewerStages(StateRank(d.jobs[i].state), StateRank(c.jobs[i].state), MoveSize(cfg));
    }
  }

  lemma {:induction false} FewerStages(a: nat, b: nat, size: nat)
    requires a < b
    ensures a * size + size <= b * size
  {
    if b == a + 1 {
      assert b * size == a * size + size;
    } else {
      FewerStages(a, b - 1, size);
      assert b * size == (b - 1) * size + size;
    }
  }

  /** How often the events move the call on before it settles. */
  function Moves(c: Controller, events: seq<ControllerEvent>, i: nat, cfg: Config): nat
    requires cfg.Valid()
    decreases |events|
  {
    if events == [] || !InRange(c) || i >= |c.jobs| || c.jobs[i].state.Settled? then 0
    else (if MovesOn(c, events[0], i) then 1 else 0) + Moves(ControllerStep(c, events[0], cfg), events[1..], i, cfg)
  }

  lemma SettledStays(c: Controller, e: ControllerEvent, i: nat, cfg: Config)
    requires cfg.Valid() && InRange(c) && i < |c.jobs| && c.jobs[i].state.Settled?
    ensures i < |ControllerStep(c, e, cfg).jobs| && ControllerStep(c, e, cfg).jobs[i] == c.jobs[i]
  {
    hide CallStart, CallStop, Step, Named, BeginBody, AdvanceBody;
    match e {
      case Begin(j) => if MayBegin(c.jobs, j) { BeginLowersRank(c, j, cfg); }
      case Advance(j, outcome) =>
        if j < |c.jobs| && c.jobs[j].state.Running? {
          if Awaited(c, c.jobs[j].state.pc).None? { AdvanceLowersRank(c, j, outcome, cfg); }
          else { BlockedStays(c, j, outcome, cfg); }
        }
      case _ =>
    }
  }

  lemma {:induction false} SettledRemains(c: Controller, events: seq<ControllerEvent>, i: nat, cfg: Config)
    requires cfg.Valid() && i < |c.jobs| && c.jobs[i].state.Settled?
    ensures i < |RunController(c, events, cfg).jobs| && RunController(c, events, cfg).jobs[i] == c.jobs[i]
    decreases |events|
  {
    hide ControllerStep, InRange;
    if events != [] && InRange(c) {
      SettledStays(c, events[0], i, cfg);
      SettledRemains(ControllerStep(c, events[0], cfg), events[1..], i, cfg);
    }
  }

  /**
   * Whatever else happens in between, and whichever way its awaits turn out, a call at its turn is settled once it has
   * been moved on as often as it has moves left; then the next call is at its turn.
   */
  lemma {:induction false} CallAtTurnSettles(c: Controller, events: seq<ControllerEvent>, i: nat, cfg: Config)
    requires cfg.Valid() && ControllerInv(c, cfg) && InRange(c) && AtTurn(c.jobs, i)
    requires Moves(c, events, i, cfg) >= MovesLeft(c, i, cfg)
    ensures i < |RunController(c, events, cfg).jobs| && RunController(c, events, cfg).jobs[i].state.Settled?
    decreases |events|
  {
    hide ControllerStep, ControllerInv, InRange, MovesLeft, MovesOn, AtTurn;
    TurnIsAJob(c.jobs, i);
    if c.jobs[i].state.Settled? {
      SettledRemains(c, events, i, cfg);
    } else {
      MovesArePositive(c, i, cfg);
      var e := events[0];
      var d := ControllerStep(c, e, cfg);
      ControllerStepKeepsInv(c, e, cfg);
      if MovesOn(c, e, i) { MoveLowers(c, e, i, cfg); } else { OtherEventsKeepMoves(c, e, i, cfg); }
      if d.jobs[i].state.Settled? {
        SettledRemains(d, events[1..], i, cfg);
      } else {
        CallAtTurnSettles(d, events[1..], i, cfg);
      }
    }
  }

  lemma TurnIsAJob(jobs: seq<Job>, i: nat)
    requires AtTurn(jobs, i)
    ensures i < |jobs|
  {
  }

  lemma MovesArePositive(c: Controller, i: nat, cfg: Config)
    requires cfg.Valid() && InRange(c) && i < |c.jobs| && !c.jobs[i].state.Settled?
    ensures MovesLeft(c, i, cfg) > 0
  {
    assert StateRank(c.jobs[i].state) >= 1 && MoveSize(cfg) >= 1;
    FewerStages(0, StateRank(c.jobs[i].state), MoveSize(cfg));
  }
}
