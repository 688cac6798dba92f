/**
 * What an open, a reopen and a shutdown have achieved when they settle, whatever else is called and happens meanwhile.
 */
module ProjectOutcomes {
  import opened Basics
  import opened DaemonSupervision
  import opened ProjectControllers
  import opened SupervisorOutcomes

  // ---------------------------------------------------------------- a supervisor started for one project

  /** The supervisor has spawned for the project, and nothing it still does is for another. */
  ghost predicate OnlyFor(sup: Sup, project: string) {
    && sup.project == Some(project) && |sup.children| > 0
    && forall id <- sup.tasks :: sup.tasks[id].StartReaping? ==> sup.tasks[id].project == project
  }

  lemma FirstStartIsFor(project: string, cfg: Config)
    requires cfg.Valid()
    ensures OnlyFor(CallStart(INITIAL_SUP, project, cfg), project)
  {
  }

  lemma CallsStayFor(s: Sup, project: string, cfg: Config)
    requires cfg.Valid() && Named(s) && OnlyFor(s, project)
    ensures OnlyFor(CallStart(s, project, cfg), project) && OnlyFor(CallStop(s, None), project)
  {
    hide Config.Polls, WaitAt;
  }

  lemma ReapingStaysFor(s: Sup, id: nat, ok: bool, project: string, cfg: Config)
    requires cfg.Valid() && Named(s) && OnlyFor(s, project) && id in s.tasks && s.tasks[id].StartReaping?
    ensures OnlyFor(ResumeTask(s, id, ok, cfg), project)
  {
    hide Config.Polls, WaitAt, OnlyFor;
    OneTaskStaysFor(s, ResumeTask(s, id, ok, cfg), id, project);
  }

  lemma WaitingStaysFor(s: Sup, id: nat, ok: bool, project: string, cfg: Config)
    requires cfg.Valid() && Named(s) && OnlyFor(s, project) && id in s.tasks
    requires s.tasks[id].IsStart() && !s.tasks[id].StartReaping?
    ensures OnlyFor(ResumeTask(s, id, ok, cfg), project)
  {
    hide Config.Polls, WaitAt, ResumeWait, OnlyFor, DoStart;
    OneTaskStaysFor(s, ResumeTask(s, id, ok, cfg), id, project);
  }

  lemma RestartStaysFor(s: Sup, id: nat, ok: bool, project: string, cfg: Config)
    requires cfg.Valid() && Named(s) && OnlyFor(s, project) && id in s.tasks && s.tasks[id].IsRestart()
    ensures OnlyFor(ResumeTask(s, id, ok, cfg), project)
  {
    hide Config.Polls, WaitAt, ResumeWait, BackoffMs, OnlyFor;
    OneTaskStaysFor(s, ResumeTask(s, id, ok, cfg), id, project);
  }

  lemma StopStaysFor(s: Sup, id: nat, ok: bool, project: string, cfg: Config)
    requires cfg.Valid() && Named(s) && OnlyFor(s, project) && NeverRestarts(s) && id in s.tasks && s.tasks[id].IsStop()
    ensures OnlyFor(ResumeTask(s, id, ok, cfg), project)
  {
    hide OnlyFor, CallStart;
    OneTaskStaysFor(s, ResumeTask(s, id, ok, cfg), id, project);
  }

  /** A task is for the project as long as it stays, and may bind the project it is for. */
  lemma OneTaskStaysFor(s: Sup, s': Sup, id: nat, project: string)
    requires OnlyFor(s, project) && id in s.tasks
    requires s'.tasks - {id} == s.tasks - {id} && |s'.children| >= |s.children|
    requires s'.project == s.project || (s.tasks[id].StartReaping? && s'.project == Some(s.tasks[id].project))
    requires id in s'.tasks && s'.tasks[id].StartReaping? ==>
               s.tasks[id].StartReaping? && s'.tasks[id].project == s.tasks[id].project
    ensures OnlyFor(s', project)
  {
    OthersInFlight(s, s', id);
  }

  lemma InternalStaysFor(s: Sup, e: Event, project: string, cfg: Config)
    requires cfg.Valid() && Named(s) && OnlyFor(s, project) && NeverRestarts(s) && IsInternal(e)
    ensures OnlyFor(Step(s, e, cfg), project)
  {
    hide ResumeTask, BackoffMs, Named;
    if e.Resume? && e.id in s.tasks {
      if s.tasks[e.id].StartReaping? { ReapingStaysFor(s, e.id, e.ok, project, cfg); }
      else if s.tasks[e.id].IsStart() { WaitingStaysFor(s, e.id, e.ok, project, cfg); }
      else if s.tasks[e.id].IsRestart() { RestartStaysFor(s, e.id, e.ok, project, cfg); }
      else { StopStaysFor(s, e.id, e.ok, project, cfg); }
    }
  }

  // ---------------------------------------------------------------- the stages of an open

  /** The creation or the start that the body has come to throws. */
  predicate Throws(c: Controller, e: ControllerEvent, i: nat)
    requires InRange(c)
  {
    && e.Advance? && e.i == i && e.outcome != Succeeds && i < |c.jobs| && c.jobs[i].state.Running?
    && match c.jobs[i].state.pc
       case TornDown(next) => next.Build?
       case StartingDaemon(k, _) => FIRST_START !in c.owned[k].sup.tasks
       case StartingShell(_, _) => true
       case _ => false
  }

  ghost predicate SomeThrows(c: Controller, events: seq<ControllerEvent>, i: nat, cfg: Config)
    requires cfg.Valid()
    decreases |events|
  {
    && events != [] && InRange(c)
    && (Throws(c, events[0], i) || SomeThrows(ControllerStep(c, events[0], cfg), events[1..], i, cfg))
  }

  /** The teardown that the body is at, if it is at one, goes on as said. */
  predicate TearsDown(c: Controller, i: nat, next: Then) {
    && i < |c.jobs| && c.jobs[i].state.Running?
    && match c.jobs[i].state.pc
       case StoppingOld(_, _, after) => after == next
       case ClosingOld(_, after) => after == next
       case TornDown(after) => after == next
       case _ => false
  }

  /** How many supervisors and shells there were when the body began, and the project that it opens. */
  datatype Plan = Plan(project: string, sup: nat, shell: nat)

  /** The pair that the plan asks for is the live one. */
  ghost predicate PairLive(c: Controller, plan: Plan) {
    && c.supervisor == Some(plan.sup) && c.shell == Some(plan.shell)
    && |c.owned| == plan.sup + 1 && |c.shells| == plan.shell + 1
    && OnlyFor(c.owned[plan.sup].sup, plan.project) && !c.owned[plan.sup].tornDown
  }

  /** The project is bound, unless it was dismissed meanwhile. */
  predicate Bound(c: Controller, plan: Plan, dismissed: bool) {
    c.project == Some(plan.project) || (dismissed && c.project.None?)
  }

  /** Nothing has thrown so far. */
  ghost predicate Opening(c: Controller, i: nat, plan: Plan, dismissed: bool) {
    || (TearsDown(c, i, Build(plan.project)) && |c.owned| == plan.sup && |c.shells| == plan.shell)
    || (&& i < |c.jobs| && c.jobs[i].state.Running? && PairLive(c, plan) && Bound(c, plan, dismissed)
        && (|| c.jobs[i].state.pc == StartingDaemon(plan.sup, plan.shell)
            || (c.jobs[i].state.pc == StartingShell(plan.sup, plan.shell) && c.shells[plan.shell].startCalled
                && FIRST_START !in c.owned[plan.sup].sup.tasks)))
  }

  predicate Empty(c: Controller) { c.supervisor.None? && c.shell.None? }

  /** The project is open: its own supervisor has been started for it, and its own shell after that. */
  ghost predicate Opened(c: Controller, plan: Plan, dismissed: bool) {
    && PairLive(c, plan) && Bound(c, plan, dismissed)
    && FIRST_START !in c.owned[plan.sup].sup.tasks
    && c.shells[plan.shell].startCalled && !c.shells[plan.shell].closeCalled && !c.shells[plan.shell].closed
  }

  lemma TeardownGoesOn(c: Controller, i: nat, next: Then)
    requires i < |c.jobs| && InRange(c)
    ensures var d := BeginTeardown(c, i, next);
            && TearsDown(d, i, next) && |d.owned| == |c.owned| && |d.shells| == |c.shells| && d.project == c.project
  {
    hide CallStop, Named;
  }

  lemma BuildOpens(c: Controller, i: nat, plan: Plan, outcome: Outcome, dismissed: bool, cfg: Config)
    requires cfg.Valid() && InRange(c) && i < |c.jobs| && |c.owned| == plan.sup && |c.shells| == plan.shell
    ensures var d := BuildPair(c, i, plan.project, outcome, cfg);
            if outcome == Succeeds then Opening(d, i, plan, dismissed) else TearsDown(d, i, Fail)
  {
    hide CallStart, CallStop, BeginTeardown, OnlyFor;
    var bound := c.(project := Some(plan.project));
    if outcome == FirstThrows {
      TeardownGoesOn(bound, i, Fail);
    } else if outcome == SecondThrows {
      var created := bound.(owned := c.owned + [Owned(INITIAL_SUP, false, 0)], supervisor := Some(|c.owned|));
      assert Named(INITIAL_SUP);
      TeardownGoesOn(created, i, Fail);
    } else {
      FirstStartIsFor(plan.project, cfg);
    }
  }

  /** A body that has thrown nothing goes on opening, is open, or throws and tears down. */
  lemma AdvanceOpens(c: Controller, i: nat, plan: Plan, outcome: Outcome, dismissed: bool, cfg: Config)
    requires cfg.Valid() && ControllerInv(c, cfg) && InRange(c) && Opening(c, i, plan, dismissed)
    ensures var d := AdvanceBody(c, i, outcome, cfg);
            && i < |d.jobs|
            && (if Throws(c, Advance(i, outcome), i) then TearsDown(d, i, Fail)
                else Opening(d, i, plan, dismissed) || (d.jobs[i].state == Settled(true) && Opened(d, plan, dismissed)))
  {
    hide OnlyFor, Named, BuildPair, BeginTeardown, OwnedSound, InOrder;
    assert PcSound(c, c.jobs[i].state.pc);
    match c.jobs[i].state.pc {
      case TornDown(Build(project)) => BuildOpens(c, i, plan, outcome, dismissed, cfg);
      case StartingDaemon(_, _) => TeardownGoesOn(c, i, Fail);
      case StartingShell(_, _) =>
        TeardownGoesOn(c, i, Fail);
        assert ShellSettled(c.shells[plan.shell], true);
      case _ =>
    }
  }

  /** Any other event leaves the stage of an opening body as it is. */
  lemma OthersKeepOpening(c: Controller, e: ControllerEvent, i: nat, plan: Plan, dismissed: bool, cfg: Config)
    requires cfg.Valid() && ControllerInv(c, cfg) && InRange(c) && AtTurn(c.jobs, i) && Opening(c, i, plan, dismissed)
    requires !(e.Advance? && e.i == i) && (e.ShowNoProject? ==> dismissed)
    ensures !Throws(c, e, i) && Opening(ControllerStep(c, e, cfg), i, plan, dismissed)
  {
    hide Inv, Quiet, NeverRestarts, OnlyFor, CallStart, CallStop, Step, AllSettledBut, Named, BeginBody, AdvanceBody;
    assert PcSound(c, c.jobs[i].state.pc);
    if PairLive(c, plan) {
      var k := plan.sup;
      assert OwnedSound(c.owned[k], true, cfg);
      LiveStaysFor(c.owned[k].sup, e, c.project, k, plan.project, cfg);
      StartSettledStays(c.owned[k].sup, e, c.project, k, cfg);
    }
  }

  /** What an event does to the live supervisor. */
  function LiveAfter(s: Sup, e: ControllerEvent, project: Option<string>, k: nat, cfg: Config): Sup
    requires cfg.Valid() && Named(s)
  {
    match e
    case Retry => if project.Some? then CallStart(s, project.value, cfg) else s
    case RequestStop => CallStop(s, None)
    case Inside(l, inner) => if l == k && IsInternal(inner) then Step(s, inner, cfg) else s
    case _ => s
  }

  lemma LiveStaysFor(s: Sup, e: ControllerEvent, bound: Option<string>, k: nat, project: string, cfg: Config)
    requires cfg.Valid() && Inv(s, cfg) && NeverRestarts(s) && OnlyFor(s, project)
    requires bound.Some? ==> bound == Some(project)
    ensures Named(s) && OnlyFor(LiveAfter(s, e, bound, k, cfg), project)
  {
    hide Inv, NeverRestarts, OnlyFor, CallStart, CallStop, Step, Named;
    InvNames(s, cfg);
    CallsStayFor(s, project, cfg);
    if e.Inside? && IsInternal(e.e) { InternalStaysFor(s, e.e, project, cfg); }
  }

  lemma StartSettledStays(s: Sup, e: ControllerEvent, bound: Option<string>, k: nat, cfg: Config)
    requires cfg.Valid() && Inv(s, cfg) && FIRST_START < s.nextTask
    ensures Named(s)
    ensures FIRST_START !in s.tasks ==> FIRST_START !in LiveAfter(s, e, bound, k, cfg).tasks
  {
    hide Inv, CallStart, CallStop, Step, Named;
    InvNames(s, cfg);
    CallsAreSteps(s, bound.GetOr(""), cfg);
    if FIRST_START !in s.tasks {
      InternalKeepsAbsent(s, StartCall(bound.GetOr("")), FIRST_START, cfg);
      InternalKeepsAbsent(s, StopCall, FIRST_START, cfg);
      if e.Inside? { InternalKeepsAbsent(s, e.e, FIRST_START, cfg); }
    }
  }

  // ---------------------------------------------------------------- one event

  /** Any event leaves a body that opens opening, opens its project, or makes it throw. */
  lemma OpeningStep(c: Controller, e: ControllerEvent, i: nat, plan: Plan, dismissed: bool, cfg: Config)
    requires cfg.Valid() && ControllerInv(c, cfg) && InRange(c) && Opening(c, i, plan, dismissed)
    requires e.ShowNoProject? ==> dismissed
    ensures var d := ControllerStep(c, e, cfg);
            && i < |d.jobs|
            && (if Throws(c, e, i) then TearsDown(d, i, Fail)
                else Opening(d, i, plan, dismissed) || (d.jobs[i].state == Settled(true) && Opened(d, plan, dismissed)))
  {
    hide ControllerInv, InRange, AdvanceBody, BeginBody, Throws, Opened, PairLive, Bound;
    InvGivesOrder(c, cfg);
    TurnOf(c.jobs, i);
    if e.Advance? && e.i == i {
      AdvanceOpens(c, i, plan, e.outcome, dismissed, cfg);
    } else {
      OthersKeepOpening(c, e, i, plan, dismissed, cfg);
    }
  }

  /** Any event leaves a body that tears down for good doing so, or settles it with nothing left. */
  lemma TeardownStep(c: Controller, e: ControllerEvent, i: nat, next: Then, cfg: Config)
    requires cfg.Valid() && ControllerInv(c, cfg) && InRange(c) && TearsDown(c, i, next) && !next.Build?
    ensures var d := ControllerStep(c, e, cfg);
            && i < |d.jobs|
            && (|| TearsDown(d, i, next)
                || (d.jobs[i].state == Settled(next.Finish?) && Empty(d) && (next.Fail? ==> d.project.None?)))
  {
    hide CallStart, CallStop, Step, AllSettledBut, Named, OwnedSound, BeginBody, InOrder;
    InvGivesOrder(c, cfg);
    TurnOf(c.jobs, i);
    assert PcSound(c, c.jobs[i].state.pc);
  }

  // ---------------------------------------------------------------- runs up to the settling event

  lemma SettledBefore(c: Controller, e: ControllerEvent, rest: seq<ControllerEvent>, i: nat, cfg: Config)
    requires cfg.Valid() && InRange(c) && i < |ControllerStep(c, e, cfg).jobs|
    requires var d := RunController(ControllerStep(c, e, cfg), rest, cfg); i < |d.jobs| && !d.jobs[i].state.Settled?
    ensures !ControllerStep(c, e, cfg).jobs[i].state.Settled?
  {
    hide ControllerStep, InRange;
    var d := ControllerStep(c, e, cfg);
    if d.jobs[i].state.Settled? { SettledRemains(d, rest, i, cfg); }
  }

  lemma {:induction false} TeardownRun(c: Controller, events: seq<ControllerEvent>, i: nat, next: Then, cfg: Config)
    requires cfg.Valid() && ControllerInv(c, cfg) && TearsDown(c, i, next) && !next.Build?
    requires var d := RunController(c, events, cfg); i < |d.jobs| && !d.jobs[i].state.Settled?
    ensures TearsDown(RunController(c, events, cfg), i, next)
    decreases |events|
  {
    hide ControllerInv, InRange, ControllerStep, TearsDown;
    if events != [] {
      InvGivesRange(c, cfg);
      TeardownStep(c, events[0], i, next, cfg);
      ControllerStepKeepsInv(c, events[0], cfg);
      SettledBefore(c, events[0], events[1..], i, cfg);
      TeardownRun(ControllerStep(c, events[0], cfg), events[1..], i, next, cfg);
    }
  }

  lemma {:induction false} OpeningRun(c: Controller, events: seq<ControllerEvent>, i: nat, plan: Plan, dismissed: bool,
                                      cfg: Config)
    requires cfg.Valid() && ControllerInv(c, cfg) && Opening(c, i, plan, dismissed)
    requires forall e <- events :: e.ShowNoProject? ==> dismissed
    requires var d := RunController(c, events, cfg); i < |d.jobs| && !d.jobs[i].state.Settled?
    ensures var d := RunController(c, events, cfg);
            if SomeThrows(c, events, i, cfg) then TearsDown(d, i, Fail) else Opening(d, i, plan, dismissed)
    decreases |events|
  {
    hide ControllerInv, InRange, ControllerStep, TearsDown, Opening, Throws, Opened;
    if events != [] {
      InvGivesRange(c, cfg);
      var d := ControllerStep(c, events[0], cfg);
      assert events[0] in events && forall e <- events[1..] :: e in events;
      OpeningStep(c, events[0], i, plan, dismissed, cfg);
      ControllerStepKeepsInv(c, events[0], cfg);
      SettledBefore(c, events[0], events[1..], i, cfg);
      if Throws(c, events[0], i) {
        TeardownRun(d, events[1..], i, Fail, cfg);
      } else {
        OpeningRun(d, events[1..], i, plan, dismissed, cfg);
      }
    }
  }

  lemma {:induction false} ThrowsAtLast(c: Controller, events: seq<ControllerEvent>, e: ControllerEvent, i: nat,
                                        cfg: Config)
    requires cfg.Valid() && ControllerInv(c, cfg)
    ensures var d := RunController(c, events, cfg);
            && InRange(d)
            && (SomeThrows(c, events + [e], i, cfg) <==> SomeThrows(c, events, i, cfg) || Throws(d, e, i))
    decreases |events|
  {
    hide ControllerInv, InRange, ControllerStep, Throws;
    InvGivesRange(c, cfg);
    if events == [] {
      assert [] + [e] == [e];
      assert !SomeThrows(ControllerStep(c, e, cfg), [e][1..], i, cfg);
    } else {
      ControllerStepKeepsInv(c, events[0], cfg);
      assert (events + [e])[1..] == events[1..] + [e];
      ThrowsAtLast(ControllerStep(c, events[0], cfg), events[1..], e, i, cfg);
    }
  }

  // ---------------------------------------------------------------- what calls have achieved

  /** The call has begun at its turn, has not settled after these events, and settles at the next one. */
  ghost predicate SettlesAt(before: seq<ControllerEvent>, i: nat, during: seq<ControllerEvent>, e: ControllerEvent,
                            cfg: Config)
    requires cfg.Valid()
  {
    var c0 := RunController(INITIAL_CONTROLLER, before, cfg);
    && InRange(c0) && MayBegin(c0.jobs, i)
    && var c := RunController(ControllerStep(c0, Begin(i), cfg), during, cfg);
       && InRange(c) && i < |c.jobs| && !c.jobs[i].state.Settled?
       && i < |ControllerStep(c, e, cfg).jobs| && ControllerStep(c, e, cfg).jobs[i].state.Settled?
  }

  /** The project that a body opens, if it opens one. */
  function Target(c: Controller, body: Body): Option<string> {
    match body
    case Open(project) => Some(project)
    case Reopen => c.project
    case Shutdown => None
  }

  /**
   * Over any run: an open settles well exactly when neither a creation nor an awaited start of its throws. Then a
   * supervisor and a shell created by it are the live ones, the supervisor has spawned for its project and for no
   * other, its start has settled and the shell has been started after it, and the project is bound unless it was
   * dismissed meanwhile. Otherwise neither is left and no project is bound. A reopen does the same for the project
   * bound at its turn.
   */
  lemma OpenSettles(before: seq<ControllerEvent>, i: nat, during: seq<ControllerEvent>, e: ControllerEvent, cfg: Config)
    requires cfg.Valid() && SettlesAt(before, i, during, e, cfg)
    requires var c0 := RunController(INITIAL_CONTROLLER, before, cfg); Target(c0, c0.jobs[i].body).Some?
    ensures var c0 := RunController(INITIAL_CONTROLLER, before, cfg);
            var c1 := ControllerStep(c0, Begin(i), cfg);
            var d := ControllerStep(RunController(c1, during, cfg), e, cfg);
            var plan := Plan(Target(c0, c0.jobs[i].body).value, |c0.owned|, |c0.shells|);
            var dismissed := ShowNoProject in during + [e];
            && (d.jobs[i].state == Settled(true) <==> !SomeThrows(c1, during + [e], i, cfg))
            && (d.jobs[i].state == Settled(true) ==> Opened(d, plan, dismissed))
            && (d.jobs[i].state != Settled(true) ==> Empty(d) && d.project.None?)
  {
    hide ControllerInv, InRange, ControllerStep, TearsDown, Opening, Throws, Opened, SomeThrows, RunController;
    var c0 := RunController(INITIAL_CONTROLLER, before, cfg);
    InitialControllerInv(cfg);
    RunKeepsControllerInv(INITIAL_CONTROLLER, before, cfg);
    var c1 := ControllerStep(c0, Begin(i), cfg);
    ControllerStepKeepsInv(c0, Begin(i), cfg);
    var plan := Plan(Target(c0, c0.jobs[i].body).value, |c0.owned|, |c0.shells|);
    var dismissed := ShowNoProject in during + [e];
    BeginOpens(c0, i, plan, dismissed, cfg);
    OpeningRun(c1, during, i, plan, dismissed, cfg);
    ThrowsAtLast(c1, during, e, i, cfg);
    RunKeepsControllerInv(c1, during, cfg);
    var c := RunController(c1, during, cfg);
    if SomeThrows(c1, during, i, cfg) {
      TeardownStep(c, e, i, Fail, cfg);
      NotSettled(ControllerStep(c, e, cfg), i, Fail);
    } else {
      OpeningStep(c, e, i, plan, dismissed, cfg);
      NotOpening(ControllerStep(c, e, cfg), i, plan, dismissed);
      NotSettled(ControllerStep(c, e, cfg), i, Fail);
    }
  }

  lemma NotSettled(c: Controller, i: nat, next: Then)
    ensures TearsDown(c, i, next) ==> i < |c.jobs| && !c.jobs[i].state.Settled?
  {
  }

  lemma NotOpening(c: Controller, i: nat, plan: Plan, dismissed: bool)
    ensures Opening(c, i, plan, dismissed) ==> i < |c.jobs| && !c.jobs[i].state.Settled?
  {
  }

  lemma BeginOpens(c: Controller, i: nat, plan: Plan, dismissed: bool, cfg: Config)
    requires cfg.Valid() && InRange(c) && MayBegin(c.jobs, i) && Target(c, c.jobs[i].body) == Some(plan.project)
    requires plan.sup == |c.owned| && plan.shell == |c.shells|
    ensures Opening(ControllerStep(c, Begin(i), cfg), i, plan, dismissed)
  {
    hide InRange, BeginTeardown;
    TeardownGoesOn(c, i, Build(plan.project));
  }

  /** A reopen with no project bound at its turn settles at once and changes nothing else. */
  lemma ReopenWithoutProject(c: Controller, i: nat, cfg: Config)
    requires cfg.Valid() && InRange(c) && MayBegin(c.jobs, i) && c.jobs[i].body.Reopen? && c.project.None?
    ensures ControllerStep(c, Begin(i), cfg) == c.With(i, Settled(true))
  {
    hide InRange;
  }

  /**
   * Over any run a shutdown settles well, with neither supervisor nor shell left, every stop awaited and every close.
   */
  lemma ShutdownSettles(before: seq<ControllerEvent>, i: nat, during: seq<ControllerEvent>, e: ControllerEvent,
                        cfg: Config)
    requires cfg.Valid() && SettlesAt(before, i, during, e, cfg)
    requires RunController(INITIAL_CONTROLLER, before, cfg).jobs[i].body.Shutdown?
    ensures var c1 := ControllerStep(RunController(INITIAL_CONTROLLER, before, cfg), Begin(i), cfg);
            var d := ControllerStep(RunController(c1, during, cfg), e, cfg);
            && d.jobs[i].state == Settled(true) && Empty(d)
            && (forall k: nat | k < |d.owned| :: d.owned[k].tornDown && d.owned[k].stopTask !in d.owned[k].sup.tasks)
            && (forall s: nat | s < |d.shells| :: d.shells[s].closed)
  {
    hide ControllerInv, InRange, ControllerStep, TearsDown, RunController;
    var c0 := RunController(INITIAL_CONTROLLER, before, cfg);
    InitialControllerInv(cfg);
    RunKeepsControllerInv(INITIAL_CONTROLLER, before, cfg);
    var c1 := ControllerStep(c0, Begin(i), cfg);
    ControllerStepKeepsInv(c0, Begin(i), cfg);
    BeginShutsDown(c0, i, cfg);
    TeardownRun(c1, during, i, Finish, cfg);
    RunKeepsControllerInv(c1, during, cfg);
    var c := RunController(c1, during, cfg);
    TeardownStep(c, e, i, Finish, cfg);
    NotSettled(ControllerStep(c, e, cfg), i, Finish);
    ControllerStepKeepsInv(c, e, cfg);
    AllRetired(c, e, i, cfg);
  }

  lemma BeginShutsDown(c: Controller, i: nat, cfg: Config)
    requires cfg.Valid() && InRange(c) && MayBegin(c.jobs, i) && c.jobs[i].body.Shutdown?
    ensures TearsDown(ControllerStep(c, Begin(i), cfg), i, Finish)
  {
    hide InRange, BeginTeardown;
    TeardownGoesOn(c, i, Finish);
  }

  /** When the body at its turn settles with nothing live, every stop and close before has settled. */
  lemma AllRetired(c: Controller, e: ControllerEvent, i: nat, cfg: Config)
    requires cfg.Valid() && ControllerInv(c, cfg) && InRange(c) && i < |c.jobs| && TearsDown(c, i, Finish)
    requires var d := ControllerStep(c, e, cfg); i < |d.jobs| && d.jobs[i].state.Settled?
    ensures var d := ControllerStep(c, e, cfg);
            && (forall k: nat | k < |d.owned| :: d.owned[k].tornDown && d.owned[k].stopTask !in d.owned[k].sup.tasks)
            && (forall s: nat | s < |d.shells| :: d.shells[s].closed)
  {
    hide CallStart, CallStop, Step, Named, Inv, Quiet, NeverRestarts, InOrder, BeginBody;
    InvGivesOrder(c, cfg);
    TurnOf(c.jobs, i);
    assert PcSound(c, c.jobs[i].state.pc);
    assert forall k: nat | k < |c.owned| :: OwnedSound(c.owned[k], false, cfg) && SupSettled(c.owned[k], false);
  }

  // ---------------------------------------------------------------- retries and stop requests

  /**
   * A retry reaches the live supervisor only, and only while a project is bound: with no start in flight and nothing
   * tracked, it spawns a process for that project at once; with a start in flight it changes nothing.
   */
  lemma RetryStarts(c: Controller, cfg: Config)
    requires cfg.Valid() && ControllerInv(c, cfg)
    ensures InRange(c)
    ensures c.supervisor.None? || c.project.None? ==> ControllerStep(c, Retry, cfg) == c
    ensures c.supervisor.Some? && c.project.Some? ==>
              var k, d := c.supervisor.value, ControllerStep(c, Retry, cfg);
              var s, s' := c.owned[k].sup, d.owned[k].sup;
              && d == c.WithSup(k, s')
              && (s.starting.Some? ==> s' == s)
              && (CanSpawn(s) ==>
                    && s'.status == Starting && s'.project == c.project && !s'.stopping
                    && s'.child == Some(|s.children|) && |s'.children| == |s.children| + 1)
  {
    hide Inv, NeverRestarts, Quiet, AllSettledBut, PcSound, InOrder, CallStart, Named;
    if c.supervisor.Some? && c.project.Some? {
      var k := c.supervisor.value;
      assert OwnedSound(c.owned[k], true, cfg);
      StartSpawnsIfFree(c.owned[k].sup, c.project.value, cfg);
    }
  }

  lemma StartSpawnsIfFree(s: Sup, project: string, cfg: Config)
    requires cfg.Valid() && Inv(s, cfg)
    ensures Named(s)
    ensures var s' := CallStart(s, project, cfg);
            && (s.starting.Some? ==> s' == s)
            && (CanSpawn(s) ==>
                  && s'.status == Starting && s'.project == Some(project) && !s'.stopping
                  && s'.child == Some(|s.children|) && |s'.children| == |s.children| + 1)
  {
    hide Inv, Config.Polls;
    InvNames(s, cfg);
  }

  /** A stop request leaves the live supervisor stopping, with nothing tracked and nothing under way, but still live. */
  lemma StopRequestStops(c: Controller, cfg: Config)
    requires cfg.Valid() && ControllerInv(c, cfg)
    ensures InRange(c)
    ensures c.supervisor.None? ==> ControllerStep(c, RequestStop, cfg) == c
    ensures c.supervisor.Some? ==>
              var k, d := c.supervisor.value, ControllerStep(c, RequestStop, cfg);
              var s, s' := c.owned[k].sup, d.owned[k].sup;
              && d == c.WithSup(k, s') && s'.stopping && Quiet(s') && s'.starting.None?
              && |s'.children| == |s.children|
              && (s.child.Some? ==> s'.children[s.child.value].terminating)
              && (s.child.None? ==> s'.status == Stopped)
  {
    hide Inv, NeverRestarts, Quiet, AllSettledBut, PcSound, InOrder, CallStop, Named;
    if c.supervisor.Some? {
      var k := c.supervisor.value;
      assert OwnedSound(c.owned[k], true, cfg);
      StopTerminates(c.owned[k].sup, cfg);
      StopMakesQuiet(c.owned[k].sup, None, cfg);
    }
  }

  lemma StopTerminates(s: Sup, cfg: Config)
    requires cfg.Valid() && Inv(s, cfg)
    ensures Named(s)
    ensures var s' := CallStop(s, None);
            && s'.stopping && s'.starting.None? && |s'.children| == |s.children|
            && (s.child.Some? ==> s.child.value < |s.children| && s'.children[s.child.value].terminating)
            && (s.child.None? ==> s'.status == Stopped)
  {
    hide TasksInv, BudgetInv, NoteSound;
    InvNames(s, cfg);
    assert s.child.Some? ==> ChildSound(s.children[s.child.value], true, s.generation, s.stopping);
  }

  /**
   * Dismissing the project unbinds it and leaves the pair alone; retries and reopens then do nothing until it is
   * bound.
   */
  lemma DismissalUnbinds(c: Controller, i: nat, cfg: Config)
    requires cfg.Valid() && ControllerInv(c, cfg)
    ensures InRange(c)
    ensures var d := ControllerStep(c, ShowNoProject, cfg);
            && d.project.None? && d.supervisor == c.supervisor && d.shell == c.shell && d.jobs == c.jobs
            && InRange(d) && ControllerStep(d, Retry, cfg) == d
            && (MayBegin(d.jobs, i) && d.jobs[i].body.Reopen? ==>
                  ControllerStep(d, Begin(i), cfg) == d.With(i, Settled(true)))
  {
    hide OwnedSound, PcSound, AllSettledBut, Named;
  }

  // ---------------------------------------------------------------- calls are kept

  /** The bodies of the calls made, in order. */
  function Asked(events: seq<ControllerEvent>): seq<Body> {
    if events == [] then []
    else (if events[0].Ask? then [events[0].body] else []) + Asked(events[1..])
  }

  function Bodies(jobs: seq<Job>): seq<Body> { seq(|jobs|, i requires 0 <= i < |jobs| => jobs[i].body) }

  /** A body that begins or goes on stays the body of its call. */
  lemma BodyMovesOn(c: Controller, i: nat, outcome: Outcome, cfg: Config)
    requires cfg.Valid() && InRange(c) && i < |c.jobs|
    ensures var d := BeginBody(c, i);
            |d.jobs| == |c.jobs| && d.jobs == c.jobs[i := c.jobs[i].(state := d.jobs[i].state)]
    ensures c.jobs[i].state.Running? ==>
              var d := AdvanceBody(c, i, outcome, cfg);
              |d.jobs| == |c.jobs| && d.jobs == c.jobs[i := c.jobs[i].(state := d.jobs[i].state)]
  {
    hide CallStart, CallStop, Named;
  }

  lemma StateIsNoBody(jobs: seq<Job>, i: nat, state: JobState)
    requires i < |jobs|
    ensures Bodies(jobs[i := jobs[i].(state := state)]) == Bodies(jobs)
  {
  }

  lemma StepKeepsBodies(c: Controller, e: ControllerEvent, cfg: Config)
    requires cfg.Valid() && InRange(c)
    ensures Bodies(ControllerStep(c, e, cfg).jobs) == Bodies(c.jobs) + (if e.Ask? then [e.body] else [])
  {
    hide CallStart, CallStop, Step, Named, BeginBody, AdvanceBody;
    var d := ControllerStep(c, e, cfg);
    match e {
      case Begin(i) =>
        if MayBegin(c.jobs, i) {
          BodyMovesOn(c, i, Succeeds, cfg);
          StateIsNoBody(c.jobs, i, d.jobs[i].state);
        }
      case Advance(i, outcome) =>
        if i < |c.jobs| && c.jobs[i].state.Running? {
          BodyMovesOn(c, i, outcome, cfg);
          StateIsNoBody(c.jobs, i, d.jobs[i].state);
        }
      case _ =>
    }
  }

  /** No call is lost, doubled or reordered: the chained bodies are those of the calls made so far. */
  lemma {:induction false} CallsAreKept(c: Controller, events: seq<ControllerEvent>, cfg: Config)
    requires cfg.Valid() && ControllerInv(c, cfg)
    ensures Bodies(RunController(c, events, cfg).jobs) == Bodies(c.jobs) + Asked(events)
    decreases |events|
  {
    hide ControllerInv, ControllerStep, Bodies, InRange;
    if events != [] {
      var asked := if events[0].Ask? then [events[0].body] else [];
      InvGivesRange(c, cfg);
      StepKeepsBodies(c, events[0], cfg);
      ControllerStepKeepsInv(c, events[0], cfg);
      CallsAreKept(ControllerStep(c, events[0], cfg), events[1..], cfg);
      assert Bodies(c.jobs) + asked + Asked(events[1..]) == Bodies(c.jobs) + (asked + Asked(events[1..]));
    }
  }
}
