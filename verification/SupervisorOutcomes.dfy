/**
 * What the supervisor has to do, beside what it must not: a lost process is replaced, a backoff ends in a respawn, a
 * crash loop fails after exactly the allowed respawns, a start comes up or gives up, a termination escalates.
 */
module SupervisorOutcomes {
  import opened Basics
  import opened DaemonSupervision

  // ---------------------------------------------------------------- the loss of a process

  /** The process exits, or reports an error. */
  predicate Loses(e: Event, c: nat) { e == ChildExit(c) || e == ChildError(c) }

  function Lost(child: Child, e: Event): Child { child.(gone := true, exited := child.exited || e.ChildExit?) }

  /**
   * In every reachable healthy state the loss of the tracked process is answered: with retries allowed the supervisor
   * is restarting, on its first retry, with one restart under way, which backs off for the shortest time; with none
   * allowed it has failed. Nothing else changes.
   */
  lemma LossRestarts(events: seq<Event>, e: Event, c: nat, cfg: Config)
    requires cfg.Valid() && Loses(e, c)
    requires var s := Run(INITIAL_SUP, events, cfg); Named(s) && s.status == Healthy && s.child == Some(c)
    ensures var s := Run(INITIAL_SUP, events, cfg);
            var s', id := Step(s, e, cfg), s.nextTask;
            && s'.child.None? && s'.children == s.children[c := Lost(s.children[c], e)]
            && s'.generation == s.generation && !s'.stopping && s'.notes == s.notes
            && (cfg.maxRetries > 0 ==>
                  && s'.status == Restarting && s'.retries == 1 && id !in s.tasks && s'.tasks - {id} == s.tasks
                  && id in s'.tasks && s'.tasks[id].RestartBackingOff?
                  && s'.tasks[id].waited == Min(cfg.backoffMaxMs, cfg.backoffBaseMs)
                  && forall j <- s'.tasks :: IsActive(s'.tasks[j], s'.generation) <==> j == id)
            && (cfg.maxRetries == 0 ==>
                  && s'.status == Failed && s'.tasks == s.tasks
                  && forall j <- s'.tasks :: !IsActive(s'.tasks[j], s'.generation))
  {
    hide RespawnsSince, Run;
    InvInitial(cfg);
    RunKeepsInv(INITIAL_SUP, events, cfg);
    var s := Run(INITIAL_SUP, events, cfg);
    HealthyIsIdle(s, c, cfg);
    assert Pow2(0) == 1;
  }

  /** With its process tracked a healthy supervisor has no start and no restart of its generation under way. */
  lemma HealthyIsIdle(s: Sup, c: nat, cfg: Config)
    requires Inv(s, cfg) && s.status == Healthy && s.child == Some(c)
    ensures c < |s.children| && s.Current(s.children[c].generation) && s.children[c].generation == s.generation
    ensures !s.children[c].gone && !s.children[c].exited && s.retries == 0
    ensures forall j <- s.tasks :: j < s.nextTask && !IsActive(s.tasks[j], s.generation)
  {
    hide RespawnsSince, TotalBackoff, NoteSound;
    assert ChildSound(s.children[c], true, s.generation, s.stopping);
  }

  /** Any other loss is only noted: of a process that is not tracked, or while the supervisor is not healthy. */
  lemma OtherLossIsNoted(events: seq<Event>, e: Event, c: nat, cfg: Config)
    requires cfg.Valid() && Loses(e, c)
    requires var s := Run(INITIAL_SUP, events, cfg);
             Named(s) && c < |s.children| && !s.children[c].gone && (s.child != Some(c) || s.status != Healthy)
    ensures var s := Run(INITIAL_SUP, events, cfg);
            Step(s, e, cfg) == s.(children := s.children[c := Lost(s.children[c], e)],
                                  child := if s.child == Some(c) then None else s.child)
  {
    hide RespawnsSince, Run, LoopHead, BudgetInv;
    InvInitial(cfg);
    RunKeepsInv(INITIAL_SUP, events, cfg);
    var s := Run(INITIAL_SUP, events, cfg);
    assert ChildSound(s.children[c], s.child == Some(c), s.generation, s.stopping);
  }

  /**
   * The exit of a process that an error had already reported lost is still seen: a termination may be waiting for it.
   */
  lemma LateExitIsSeen(events: seq<Event>, c: nat, cfg: Config)
    requires cfg.Valid()
    requires var s := Run(INITIAL_SUP, events, cfg);
             Named(s) && c < |s.children| && s.children[c].gone && !s.children[c].exited
    ensures var s := Run(INITIAL_SUP, events, cfg);
            Step(s, ChildExit(c), cfg) == s.(children := s.children[c := s.children[c].(exited := true)])
  {
    hide Run;
  }

  // ---------------------------------------------------------------- respawns

  /** When the backoff of a current restart is over, one process more has been spawned, is tracked, and is probed. */
  lemma BackoffEndsInRespawn(events: seq<Event>, id: nat, ok: bool, cfg: Config)
    requires cfg.Valid()
    requires var s := Run(INITIAL_SUP, events, cfg);
             id in s.tasks && s.tasks[id].RestartBackingOff? && s.Current(s.tasks[id].generation)
    ensures var s := Run(INITIAL_SUP, events, cfg);
            && Named(s)
            && var s', c := Step(s, Resume(id, ok), cfg), |s.children|;
               && s'.child == Some(c)
               && s'.children == s.children + [Child(s.generation, false, false, false, false, false)]
               && |s'.notes| == |s.notes| + 1 && s'.notes[..|s.notes|] == s.notes
               && s'.notes[|s.notes|].Spawned? && s'.notes[|s.notes|].respawn
               && s'.status == s.status && s'.retries == s.retries && s'.generation == s.generation
               && id in s'.tasks && s'.tasks - {id} == s.tasks - {id} && s'.tasks[id].RestartWaiting?
               && s'.tasks[id].child == c && s'.tasks[id].w == Probing(cfg.Polls() - 1)
  {
    hide RespawnsSince, Run, Config.Polls;
    InvInitial(cfg);
    RunKeepsInv(INITIAL_SUP, events, cfg);
  }

  /** A restart of the current generation has made as many respawns as retries, or is backing off for the last one. */
  ghost predicate CountInv(s: Sup) {
    forall id <- s.tasks | IsActive(s.tasks[id], s.generation) && s.tasks[id].IsRestart() ::
      RespawnsSince(s.notes) + (if s.tasks[id].RestartBackingOff? then 1 else 0) == s.retries
  }

  lemma CallStartKeepsCount(s: Sup, project: string, cfg: Config)
    requires cfg.Valid() && Inv(s, cfg) && CountInv(s)
    ensures CountInv(CallStart(s, project, cfg))
  {
    hide RespawnsSince, TotalBackoff, ActiveSound, ChildSound, BudgetInv, Config.Polls, WaitAt;
  }

  lemma CallStopKeepsCount(s: Sup, thenStart: Option<string>, cfg: Config)
    requires cfg.Valid() && Inv(s, cfg) && CountInv(s)
    ensures CountInv(CallStop(s, thenStart))
  {
    hide RespawnsSince, TotalBackoff, ActiveSound, ChildSound, BudgetInv;
  }

  lemma ChildGoneKeepsCount(s: Sup, c: nat, cfg: Config)
    requires cfg.Valid() && Inv(s, cfg) && CountInv(s) && c < |s.children| && !s.children[c].gone
    ensures CountInv(OnChildGone(s, c, cfg))
  {
    hide RespawnsSince, TotalBackoff, BackoffMs;
    if s.child == Some(c) && s.status == Healthy { HealthyIsIdle(s, c, cfg); }
  }

  lemma ResumeStartKeepsCount(s: Sup, id: nat, ok: bool, cfg: Config)
    requires cfg.Valid() && Inv(s, cfg) && CountInv(s) && id in s.tasks && s.tasks[id].IsStart()
    ensures CountInv(ResumeTask(s, id, ok, cfg))
  {
    hide RespawnsSince, TotalBackoff, ActiveSound, ChildSound, TaskSound, BudgetInv, Config.Polls, WaitAt, ResumeWait;
    InvNames(s, cfg);
    if IsActive(s.tasks[id], s.generation) { ActiveIsOnly(s, id, cfg); }
  }

  lemma ResumeRestartKeepsCount(s: Sup, id: nat, ok: bool, cfg: Config)
    requires cfg.Valid() && Inv(s, cfg) && CountInv(s) && id in s.tasks && s.tasks[id].IsRestart()
    ensures CountInv(ResumeTask(s, id, ok, cfg))
  {
    hide RespawnsSince, TotalBackoff, ActiveSound, ChildSound, TaskSound, BudgetInv, Config.Polls, WaitAt, ResumeWait;
    hide BackoffMs;
    InvNames(s, cfg);
    if IsActive(s.tasks[id], s.generation) { ActiveIsOnly(s, id, cfg); }
    RespawnsSnoc(s.notes, Spawned(s.tasks[id].generation, s.generation, s.stopping, s.child, true));
  }

  lemma ResumeStopKeepsCount(s: Sup, id: nat, ok: bool, cfg: Config)
    requires cfg.Valid() && Inv(s, cfg) && CountInv(s) && id in s.tasks && s.tasks[id].IsStop()
    ensures CountInv(ResumeTask(s, id, ok, cfg))
  {
    hide RespawnsSince, Inv, CallStart;
    InvNames(s, cfg);
    WithoutKeepsInv(s, id, cfg);
    if s.tasks[id].StopYielded? && s.tasks[id].thenStart.Some? {
      CallStartKeepsCount(s.Without(id), s.tasks[id].thenStart.value, cfg);
    }
  }

  lemma StepKeepsCount(s: Sup, e: Event, cfg: Config)
    requires cfg.Valid() && Inv(s, cfg) && CountInv(s)
    ensures CountInv(Step(s, e, cfg))
  {
    hide CallStart, CallStop, OnChildGone, ResumeTask, Inv;
    InvNames(s, cfg);
    match e {
      case StartCall(project) => CallStartKeepsCount(s, project, cfg);
      case StopCall => CallStopKeepsCount(s, None, cfg);
      case RestartCall(project) => CallStopKeepsCount(s, Some(project), cfg);
      case ChildExit(c) =>
        if c < |s.children| && !s.children[c].exited && !s.children[c].gone { ExitKeepsCount(s, c, cfg); }
      case ChildError(c) => if c < |s.children| && !s.children[c].gone { ChildGoneKeepsCount(s, c, cfg); }
      case Resume(id, ok) =>
        if id in s.tasks {
          if s.tasks[id].IsStop() { ResumeStopKeepsCount(s, id, ok, cfg); }
          else if s.tasks[id].IsRestart() { ResumeRestartKeepsCount(s, id, ok, cfg); }
          else { ResumeStartKeepsCount(s, id, ok, cfg); }
        }
    }
  }

  lemma ExitKeepsCount(s: Sup, c: nat, cfg: Config)
    requires cfg.Valid() && Inv(s, cfg) && CountInv(s) && c < |s.children| && !s.children[c].exited
    requires !s.children[c].gone
    ensures CountInv(OnChildGone(s.Mark(c, s.children[c].(exited := true)), c, cfg))
  {
    hide RespawnsSince, BackoffMs, Inv;
    ChildGoneKeepsCount(s, c, cfg);
  }

  lemma {:induction false} RunKeepsCount(s: Sup, events: seq<Event>, cfg: Config)
    requires cfg.Valid() && Inv(s, cfg) && CountInv(s)
    ensures CountInv(Run(s, events, cfg))
    decreases |events|
  {
    hide Inv, Step, CountInv;
    if events != [] {
      InvNames(s, cfg);
      StepKeepsCount(s, events[0], cfg);
      StepKeepsInv(s, events[0], cfg);
      RunKeepsCount(Step(s, events[0], cfg), events[1..], cfg);
    }
  }

  /**
   * How the restart of a reachable state ends while it is current: healthy when a probe was answered, failed exactly
   * when all allowed respawns have been made and the last one was given up and terminated; otherwise it goes on, and
   * after a respawn that was given up it backs off for one retry more.
   */
  lemma RestartEndsIff(events: seq<Event>, id: nat, ok: bool, cfg: Config)
    requires cfg.Valid()
    requires var s := Run(INITIAL_SUP, events, cfg);
             id in s.tasks && IsActive(s.tasks[id], s.generation) && s.tasks[id].IsRestart()
    ensures var s := Run(INITIAL_SUP, events, cfg);
            && Named(s)
            && var s', task := Step(s, Resume(id, ok), cfg), s.tasks[id];
               var answered := task.RestartWaiting? && task.w == Decided(true);
               var givenUp := task.RestartDiscarding? && task.t == Reaped;
               && (id !in s'.tasks && s'.status == Failed <==> givenUp && RespawnsSince(s.notes) == cfg.maxRetries)
               && (id !in s'.tasks && s'.status == Healthy <==> answered)
               && (id !in s'.tasks ==> s'.status == Failed || s'.status == Healthy)
               && (answered ==> s'.retries == 0)
               && (givenUp && RespawnsSince(s.notes) < cfg.maxRetries ==>
                     && s'.status == Restarting && s'.retries == RespawnsSince(s.notes) + 1
                     && id in s'.tasks && s'.tasks[id].RestartBackingOff? && s'.tasks[id].generation == s.generation
                     && s'.tasks[id].waited == task.waited + BackoffMs(cfg, RespawnsSince(s.notes)))
  {
    hide RespawnsSince, Run, Config.Polls, TotalBackoff, BackoffMs, WaitAt, ResumeWait;
    InvInitial(cfg);
    RunKeepsInv(INITIAL_SUP, events, cfg);
    RunKeepsCount(INITIAL_SUP, events, cfg);
  }

  /** The backoff starts at the base and doubles up to the cap. */
  lemma BackoffDoubles(cfg: Config, attempt: nat)
    ensures BackoffMs(cfg, 0) == Min(cfg.backoffMaxMs, cfg.backoffBaseMs)
    ensures BackoffMs(cfg, attempt + 1) == Min(cfg.backoffMaxMs, 2 * BackoffMs(cfg, attempt))
  {
    assert cfg.backoffBaseMs * Pow2(attempt + 1) == 2 * (cfg.backoffBaseMs * Pow2(attempt));
  }

  // ---------------------------------------------------------------- a crash loop

  /** The event supersedes nothing, and if it answers a probe the answer is no. */
  predicate Failing(s: Sup, e: Event) {
    match e
    case Resume(id, ok) => !ok && (id in s.tasks ==> !s.tasks[id].IsStop())
    case ChildExit(_) => true
    case ChildError(_) => true
    case _ => false
  }

  ghost predicate AllFailing(s: Sup, events: seq<Event>, cfg: Config)
    requires cfg.Valid()
    decreases |events|
  {
    events == [] || !Named(s) || (Failing(s, events[0]) && AllFailing(Step(s, events[0], cfg), events[1..], cfg))
  }

  /** The restart is under way and no probe of its was answered. */
  predicate Crashing(s: Sup, id: nat) {
    && id in s.tasks && IsActive(s.tasks[id], s.generation) && s.tasks[id].IsRestart()
    && (s.tasks[id].RestartWaiting? ==> s.tasks[id].w != Decided(true))
  }

  /** The supervisor has failed for good. */
  ghost predicate Given(s: Sup, id: nat, cfg: Config) {
    Quiet(s) && s.status == Failed && id < s.nextTask && id !in s.tasks && RespawnsSince(s.notes) == cfg.maxRetries
  }

  /** Each process beyond the first ones is a respawn. */
  predicate SameExcess(s: Sup, s': Sup) {
    |s'.children| - RespawnsSince(s'.notes) == |s.children| - RespawnsSince(s.notes)
  }

  lemma CrashingResumed(s: Sup, id: nat, cfg: Config)
    requires cfg.Valid() && Inv(s, cfg) && CountInv(s) && Crashing(s, id)
    ensures Named(s)
    ensures var s' := Step(s, Resume(id, false), cfg);
            (Crashing(s', id) || Given(s', id, cfg)) && SameExcess(s, s')
  {
    hide RespawnsSince, TotalBackoff, BackoffMs, Config.Polls, TaskSound, ChildSound;
    InvNames(s, cfg);
    ActiveIsOnly(s, id, cfg);
    RespawnsSnoc(s.notes, Spawned(s.tasks[id].generation, s.generation, s.stopping, s.child, true));
  }

  lemma OthersKeepCrashing(s: Sup, j: nat, id: nat, cfg: Config)
    requires cfg.Valid() && Inv(s, cfg) && Crashing(s, id) && j in s.tasks && j != id && !s.tasks[j].IsStop()
    ensures Named(s)
    ensures var s' := Step(s, Resume(j, false), cfg);
            Crashing(s', id) && s'.notes == s.notes && |s'.children| == |s.children|
  {
    hide RespawnsSince, TotalBackoff, BackoffMs, Config.Polls, WaitAt, ResumeWait, TaskSound, ChildSound, ActiveSound;
    hide BudgetInv;
    InvNames(s, cfg);
    ActiveIsOnly(s, id, cfg);
    assert !IsActive(s.tasks[j], s.generation);
  }

  lemma LossKeepsCrashing(s: Sup, e: Event, id: nat, cfg: Config)
    requires cfg.Valid() && Inv(s, cfg) && Crashing(s, id) && (e.ChildExit? || e.ChildError?)
    ensures Named(s)
    ensures var s' := Step(s, e, cfg);
            Crashing(s', id) && s'.notes == s.notes && |s'.children| == |s.children|
  {
    hide RespawnsSince, TotalBackoff, TaskSound, ChildSound, LoopHead;
    InvNames(s, cfg);
    assert ActiveSound(s.tasks[id], s.children, s.child, s.stopping, s.status, s.retries, cfg);
  }

  lemma FailingKeepsGiven(s: Sup, e: Event, id: nat, cfg: Config)
    requires cfg.Valid() && Inv(s, cfg) && Given(s, id, cfg) && Failing(s, e)
    ensures Named(s)
    ensures var s' := Step(s, e, cfg); Given(s', id, cfg) && s'.notes == s.notes && |s'.children| == |s.children|
  {
    hide RespawnsSince, TotalBackoff, BackoffMs, Config.Polls, WaitAt, ResumeWait, TaskSound, ChildSound, ActiveSound;
    hide BudgetInv, DoStart;
    InvNames(s, cfg);
    QuietStep(s, e, cfg);
  }

  lemma {:induction false} CrashLoop(s: Sup, events: seq<Event>, id: nat, cfg: Config)
    requires cfg.Valid() && Inv(s, cfg) && CountInv(s) && (Crashing(s, id) || Given(s, id, cfg))
    requires AllFailing(s, events, cfg)
    ensures var s' := Run(s, events, cfg); (Crashing(s', id) || Given(s', id, cfg)) && SameExcess(s, s')
    decreases |events|
  {
    hide Inv, CountInv, Step, Crashing, Given, RespawnsSince;
    if events != [] {
      var e := events[0];
      InvNames(s, cfg);
      if Given(s, id, cfg) { FailingKeepsGiven(s, e, id, cfg); }
      else if e.Resume? && e.id == id { CrashingResumed(s, id, cfg); }
      else if e.Resume? { if e.id in s.tasks { OthersKeepCrashing(s, e.id, id, cfg); } else { NoSuchTask(s, e, cfg); } }
      else { LossKeepsCrashing(s, e, id, cfg); }
      StepKeepsInv(s, e, cfg);
      StepKeepsCount(s, e, cfg);
      CrashLoop(Step(s, e, cfg), events[1..], id, cfg);
    }
  }

  lemma NoSuchTask(s: Sup, e: Event, cfg: Config)
    requires cfg.Valid() && Named(s) && e.Resume? && e.id !in s.tasks
    ensures Step(s, e, cfg) == s
  {
  }

  /**
   * A healthy daemon that is lost, and whose respawns are never answered, is respawned exactly as often as allowed:
   * when the restart has been resumed often enough the supervisor has failed with nothing tracked, whatever else
   * exits or resumes meanwhile, as long as nobody calls and no earlier stop is pending.
   */
  lemma CrashLoopFails(before: seq<Event>, e: Event, c: nat, after: seq<Event>, cfg: Config)
    requires cfg.Valid() && cfg.maxRetries > 0 && Loses(e, c)
    requires var s := Run(INITIAL_SUP, before, cfg);
             && Named(s) && s.status == Healthy && s.child == Some(c)
             && AllFailing(Step(s, e, cfg), after, cfg)
             && Resumptions(after, s.nextTask) >= cfg.maxRetries * (2 * cfg.Polls() + 4)
    ensures var s := Run(INITIAL_SUP, before, cfg);
            var s' := Run(Step(s, e, cfg), after, cfg);
            && s'.status == Failed && s'.child.None? && |s'.children| == |s.children| + cfg.maxRetries
            && forall j <- s'.tasks :: !IsActive(s'.tasks[j], s'.generation)
  {
    hide Inv, CountInv, Run, Step, RespawnsSince, Config.Polls;
    var s := Run(INITIAL_SUP, before, cfg);
    InvInitial(cfg);
    RunKeepsInv(INITIAL_SUP, before, cfg);
    InitialCount();
    RunKeepsCount(INITIAL_SUP, before, cfg);
    LossRestarts(before, e, c, cfg);
    var s1, id := Step(s, e, cfg), s.nextTask;
    StepKeepsInv(s, e, cfg);
    StepKeepsCount(s, e, cfg);
    RankOfBackoff(s1, id, cfg);
    EveryTaskEnds(s1, after, id, cfg);
    CrashLoop(s1, after, id, cfg);
    NoRespawnsYet(s1, id, cfg);
  }

  lemma InitialCount()
    ensures CountInv(INITIAL_SUP)
  {
  }

  lemma RankOfBackoff(s: Sup, id: nat, cfg: Config)
    requires cfg.Valid() && id in s.tasks && s.tasks[id].RestartBackingOff? && IsActive(s.tasks[id], s.generation)
    requires s.retries == 1 && cfg.maxRetries > 0
    ensures Rank(s, s.tasks[id], cfg) == cfg.maxRetries * (2 * cfg.Polls() + 4)
  {
    hide Config.Polls, RoundRank;
    RoundRankIs(cfg);
    OneRoundLess(cfg, 0);
  }

  lemma NoRespawnsYet(s: Sup, id: nat, cfg: Config)
    requires CountInv(s) && id in s.tasks && s.tasks[id].RestartBackingOff? && IsActive(s.tasks[id], s.generation)
    requires s.retries == 1
    ensures RespawnsSince(s.notes) == 0
  {
  }

  // ---------------------------------------------------------------- health waits

  /** So many probes of a task answered no, with the pauses between them. */
  function FailedProbes(id: nat, k: nat): seq<Event> {
    if k == 0 then [] else [Resume(id, false), Resume(id, false)] + FailedProbes(id, k - 1)
  }

  /** A current task waits for the health of its process, which is tracked. */
  predicate Waits(s: Sup, id: nat, left: nat) {
    && id in s.tasks && (s.tasks[id].StartWaiting? || s.tasks[id].RestartWaiting?)
    && s.Current(s.tasks[id].generation) && s.child == Some(s.tasks[id].child) && s.tasks[id].w == Probing(left)
  }

  lemma RunOfTwo(s: Sup, a: Event, b: Event, rest: seq<Event>, cfg: Config)
    requires cfg.Valid() && Inv(s, cfg)
    ensures Named(s) && Named(Step(s, a, cfg)) && Inv(Step(Step(s, a, cfg), b, cfg), cfg)
    ensures Run(s, [a, b] + rest, cfg) == Run(Step(Step(s, a, cfg), b, cfg), rest, cfg)
  {
    hide Inv, Step, Named;
    InvNames(s, cfg);
    StepKeepsInv(s, a, cfg);
    InvNames(Step(s, a, cfg), cfg);
    StepKeepsInv(Step(s, a, cfg), b, cfg);
    assert ([a, b] + rest)[1..] == [b] + rest && ([b] + rest)[1..] == rest;
  }

  /** One failed probe and the pause after it leave one probe less, and change nothing else. */
  lemma ProbeRound(s: Sup, id: nat, left: nat, cfg: Config)
    requires cfg.Valid() && Inv(s, cfg) && Waits(s, id, left) && left > 0
    ensures Named(s) && Named(Step(s, Resume(id, false), cfg))
    ensures Step(Step(s, Resume(id, false), cfg), Resume(id, false), cfg)
            == s.With(id, s.tasks[id].(w := Probing(left - 1)))
  {
    hide Inv;
    InvNames(s, cfg);
    StepKeepsInv(s, Resume(id, false), cfg);
    InvNames(Step(s, Resume(id, false), cfg), cfg);
  }

  lemma {:induction false} ProbeRounds(s: Sup, id: nat, left: nat, k: nat, cfg: Config)
    requires cfg.Valid() && Inv(s, cfg) && Waits(s, id, left) && k <= left
    ensures Run(s, FailedProbes(id, k), cfg) == s.With(id, s.tasks[id].(w := Probing(left - k)))
    ensures Inv(s.With(id, s.tasks[id].(w := Probing(left - k))), cfg)
    decreases k
  {
    hide Inv, Step, Named;
    InvNames(s, cfg);
    if k == 0 {
      assert s.With(id, s.tasks[id].(w := Probing(left))) == s;
    } else {
      ProbeRound(s, id, left, cfg);
      RunOfTwo(s, Resume(id, false), Resume(id, false), FailedProbes(id, k - 1), cfg);
      ProbeRounds(s.With(id, s.tasks[id].(w := Probing(left - 1))), id, left - 1, k - 1, cfg);
    }
  }

  lemma {:induction false} RunOfJoin(s: Sup, a: seq<Event>, b: seq<Event>, cfg: Config)
    requires cfg.Valid() && Inv(s, cfg)
    ensures Run(s, a + b, cfg) == Run(Run(s, a, cfg), b, cfg)
    decreases |a|
  {
    hide Inv, Step;
    if a == [] {
      assert a + b == b;
    } else {
      InvNames(s, cfg);
      StepKeepsInv(s, a[0], cfg);
      assert (a + b)[1..] == a[1..] + b;
      RunOfJoin(Step(s, a[0], cfg), a[1..], b, cfg);
    }
  }

  /** A probe answered yes, and what follows it. */
  lemma AnsweredProbe(s: Sup, id: nat, left: nat, cfg: Config)
    requires cfg.Valid() && Inv(s, cfg) && Waits(s, id, left)
    ensures var s', task := Run(s, [Resume(id, true), Resume(id, false)], cfg), s.tasks[id];
            && s'.status == Healthy && s'.retries == 0 && s'.child == s.child && s'.children == s.children
            && s'.tasks == (if task.StartWaiting? then s.tasks[id := StartSettled(task.generation)] else s.tasks - {id})
            && s'.project == s.project && s'.starting == s.starting && s'.generation == s.generation
            && s'.notes == s.notes + [BecameHealthy(s.generation, false)]
  {
    hide RespawnsSince, BudgetInv, TasksInv;
    RunOfTwo(s, Resume(id, true), Resume(id, false), [], cfg);
    assert [Resume(id, true), Resume(id, false)] + [] == [Resume(id, true), Resume(id, false)];
    assert ChildSound(s.children[s.child.value], true, s.generation, s.stopping);
  }

  /** The process as its termination leaves it when no signal is answered. */
  function Abandoned(child: Child): Child { child.(terminating := true, killed := true, unanswered := true) }

  /** When the last probe is answered no, the process is forgotten and told to terminate. */
  lemma LastProbeDiscards(s: Sup, id: nat, cfg: Config)
    requires cfg.Valid() && Inv(s, cfg) && Waits(s, id, 0)
    ensures Named(s) && Named(Step(s, Resume(id, false), cfg)) && s.tasks[id].child < |s.children|
    ensures Step(Step(s, Resume(id, false), cfg), Resume(id, false), cfg)
            == s.(child := None, children := s.children[s.tasks[id].child :=
                                   s.children[s.tasks[id].child].(terminating := true)])
                .With(id, Discarding(s.tasks[id], Grace))
    ensures !s.children[s.tasks[id].child].exited
  {
    hide RespawnsSince, BudgetInv, TasksInv, NoteSound;
    var r := Resume(id, false);
    RunOfTwo(s, r, r, [], cfg);
    assert ChildSound(s.children[s.child.value], true, s.generation, s.stopping);
  }

  /** What a wait that is given up becomes. */
  function Discarding(task: Task, t: Termination): Task
    requires task.StartWaiting? || task.RestartWaiting?
  {
    if task.StartWaiting? then StartDiscarding(task.generation, task.child, t)
    else RestartDiscarding(task.generation, task.child, t, task.waited)
  }

  function AtStage(task: Task, t: Termination): Task
    requires Terminates(task)
  {
    task.(t := t)
  }

  /** A process that answers no signal is killed after the first grace and abandoned after the second. */
  lemma DiscardAbandons(s: Sup, id: nat, cfg: Config)
    requires cfg.Valid() && Inv(s, cfg) && id in s.tasks
    requires (s.tasks[id].StartDiscarding? || s.tasks[id].RestartDiscarding?)
    requires s.tasks[id].t == Grace
    requires s.tasks[id].child < |s.children| && !s.children[s.tasks[id].child].exited
    ensures Named(s) && Named(Step(s, Resume(id, false), cfg))
    ensures var c := s.tasks[id].child;
            Step(Step(s, Resume(id, false), cfg), Resume(id, false), cfg)
            == s.(children := s.children[c := s.children[c].(killed := true, unanswered := true)])
                .With(id, AtStage(s.tasks[id], Reaped))
  {
    hide Inv, LoopHead, DoStart;
    var r := Resume(id, false);
    RunOfTwo(s, r, r, [], cfg);
  }

  /**
   * The last probe answered no, the process is forgotten and told to terminate, killed after the first grace and
   * abandoned after the second.
   */
  lemma LastProbeFails(s: Sup, id: nat, cfg: Config)
    requires cfg.Valid() && Inv(s, cfg) && Waits(s, id, 0)
    ensures var s', task, c := Run(s, LastProbe(id), cfg), s.tasks[id], s.tasks[id].child;
            && c < |s.children|
            && s' == s.(child := None, children := s.children[c := Abandoned(s.children[c])])
                      .With(id, Discarding(task, Reaped))
            && Inv(s', cfg)
  {
    hide Inv, Step, Named;
    var r := Resume(id, false);
    RunOfTwo(s, r, r, [r, r], cfg);
    LastProbeDiscards(s, id, cfg);
    var s2 := Step(Step(s, r, cfg), r, cfg);
    RunOfTwo(s2, r, r, [], cfg);
    DiscardAbandons(s2, id, cfg);
    assert [r, r] + [r, r] == LastProbe(id) && [r, r] + [] == [r, r];
    assert s2.tasks[id := Discarding(s.tasks[id], Reaped)] == s.tasks[id := Discarding(s.tasks[id], Reaped)];
  }

  function LastProbe(id: nat): seq<Event> {
    [Resume(id, false), Resume(id, false), Resume(id, false), Resume(id, false)]
  }

  /** A wait whose process was lost asks no further probe: after the pause it is given up. */
  lemma LossEndsWait(s: Sup, id: nat, ok: bool, cfg: Config)
    requires cfg.Valid() && Inv(s, cfg) && id in s.tasks && (s.tasks[id].StartWaiting? || s.tasks[id].RestartWaiting?)
    requires s.tasks[id].w.Pausing? && s.child != Some(s.tasks[id].child)
    ensures Named(s) && Step(s, Resume(id, ok), cfg) == s.With(id, s.tasks[id].(w := Decided(false)))
  {
    hide Inv;
    InvNames(s, cfg);
  }

  /**
   * A start or restart that something has superseded changes nothing any more but what the termination it awaits does
   * to its own process.
   */
  lemma SupersededOnlyTerminates(s: Sup, id: nat, ok: bool, cfg: Config)
    requires cfg.Valid() && Inv(s, cfg) && id in s.tasks && IsEpisode(s.tasks[id])
    requires s.tasks[id].generation != s.generation
    ensures Named(s)
    ensures var s', task := Step(s, Resume(id, ok), cfg), s.tasks[id];
            && s' == s.(children := s'.children, tasks := s'.tasks) && s'.tasks - {id} == s.tasks - {id}
            && (s'.children != s.children ==>
                  && Terminates(task) && task.t != Reaped && task.child < |s.children|
                  && |s'.children| == |s.children| && s'.children == s.children[task.child := s'.children[task.child]])
            && (id in s'.tasks && IsEpisode(s'.tasks[id]) ==> s'.tasks[id].generation == task.generation)
  {
    hide Inv, WaitAt, ResumeWait, BackoffMs, DoStart, Config.Polls;
    InvNames(s, cfg);
  }

  // ---------------------------------------------------------------- starts

  /** No start is in flight and no process is tracked: a start spawns at once. */
  predicate CanSpawn(s: Sup) { s.starting.None? && s.child.None? }

  /** A start that need not wait for an old process spawns one at once, for its project, with fresh retries. */
  lemma StartSpawns(s: Sup, project: string, cfg: Config)
    requires cfg.Valid() && Inv(s, cfg) && CanSpawn(s)
    ensures Named(s)
    ensures var s', id, g := Step(s, StartCall(project), cfg), s.nextTask, s.generation + 1;
            && s'.generation == g && s'.project == Some(project) && s'.status == Starting && s'.retries == 0
            && !s'.stopping && s'.starting == Some(id) && s'.child == Some(|s.children|)
            && s'.children == s.children + [Child(g, false, false, false, false, false)]
            && Waits(s', id, cfg.Polls() - 1) && s'.tasks[id].StartWaiting? && s'.tasks[id].generation == g
  {
    hide Inv, Config.Polls;
    InvNames(s, cfg);
  }

  /**
   * A start whose probe is answered within the polls comes up: whatever happened before, after so many failed probes
   * and one that succeeds the supervisor is healthy with a new process for the project.
   */
  lemma StartComesUp(before: seq<Event>, project: string, fails: nat, cfg: Config)
    requires cfg.Valid() && CanSpawn(Run(INITIAL_SUP, before, cfg)) && fails < cfg.Polls()
    ensures var s := Run(INITIAL_SUP, before, cfg);
            && Named(s)
            && var id := s.nextTask;
               var answers := FailedProbes(id, fails) + [Resume(id, true), Resume(id, false)];
               var s' := Run(Step(s, StartCall(project), cfg), answers, cfg);
               && s'.status == Healthy && s'.project == Some(project) && s'.retries == 0
               && s'.child == Some(|s.children|) && |s'.children| == |s.children| + 1
               && !s'.children[|s.children|].gone && !s'.children[|s.children|].terminating
  {
    hide Inv, Step, Run, Config.Polls, FailedProbes;
    InvInitial(cfg);
    RunKeepsInv(INITIAL_SUP, before, cfg);
    var s := Run(INITIAL_SUP, before, cfg);
    var id := s.nextTask;
    StartSpawns(s, project, cfg);
    var s1 := Step(s, StartCall(project), cfg);
    StepKeepsInv(s, StartCall(project), cfg);
    ProbeRounds(s1, id, cfg.Polls() - 1, fails, cfg);
    RunOfJoin(s1, FailedProbes(id, fails), [Resume(id, true), Resume(id, false)], cfg);
    AnsweredProbe(Run(s1, FailedProbes(id, fails), cfg), id, cfg.Polls() - 1 - fails, cfg);
  }

  /**
   * A start none of whose probes is answered gives up visibly after as many probes as there are polls: the process is
   * terminated, killed and forgotten, and the supervisor has failed.
   */
  lemma StartGivesUp(before: seq<Event>, project: string, cfg: Config)
    requires cfg.Valid() && CanSpawn(Run(INITIAL_SUP, before, cfg))
    ensures var s := Run(INITIAL_SUP, before, cfg);
            && Named(s)
            && var id := s.nextTask;
               var probes := FailedProbes(id, cfg.Polls() - 1) + LastProbe(id);
               var answers := probes + [Resume(id, false), Resume(id, false)];
               var s' := Run(Step(s, StartCall(project), cfg), answers, cfg);
               && s'.status == Failed && s'.child.None? && s'.starting.None? && id !in s'.tasks
               && s'.children
                  == s.children + [Abandoned(Child(s.generation + 1, false, false, false, false, false))]
  {
    hide Inv, Step, Run, Config.Polls, FailedProbes, LastProbe;
    InvInitial(cfg);
    RunKeepsInv(INITIAL_SUP, before, cfg);
    var s := Run(INITIAL_SUP, before, cfg);
    var id := s.nextTask;
    StartSpawns(s, project, cfg);
    var s1 := Step(s, StartCall(project), cfg);
    StepKeepsInv(s, StartCall(project), cfg);
    var probes, last, end := FailedProbes(id, cfg.Polls() - 1), LastProbe(id), [Resume(id, false), Resume(id, false)];
    ProbeRounds(s1, id, cfg.Polls() - 1, cfg.Polls() - 1, cfg);
    var s2 := Run(s1, probes, cfg);
    LastProbeFails(s2, id, cfg);
    var s3 := Run(s2, last, cfg);
    RunOfJoin(s1, probes, last, cfg);
    RunOfJoin(s1, probes + last, end, cfg);
    DiscardedStartFails(s3, id, cfg);
  }

  lemma DiscardedStartFails(s: Sup, id: nat, cfg: Config)
    requires cfg.Valid() && Inv(s, cfg) && id in s.tasks && s.tasks[id].StartDiscarding? && s.tasks[id].t == Reaped
    requires s.Current(s.tasks[id].generation) && s.starting == Some(id)
    ensures var s' := Run(s, [Resume(id, false), Resume(id, false)], cfg);
            s' == s.(status := Failed, starting := None).Without(id)
  {
    hide Inv;
    var r := Resume(id, false);
    RunOfTwo(s, r, r, [], cfg);
    assert [r, r] + [] == [r, r];
    assert s.(status := Failed, starting := None).With(id, StartSettled(s.tasks[id].generation)).tasks - {id}
           == s.tasks - {id};
  }

  /** A restart's respawn that is answered within the polls brings the supervisor back, with the retries forgotten. */
  lemma RespawnComesUp(before: seq<Event>, id: nat, fails: nat, cfg: Config)
    requires cfg.Valid() && fails < cfg.Polls()
    requires var s := Run(INITIAL_SUP, before, cfg);
             id in s.tasks && s.tasks[id].RestartBackingOff? && s.Current(s.tasks[id].generation)
    ensures var s := Run(INITIAL_SUP, before, cfg);
            && Named(s)
            && var answers := FailedProbes(id, fails) + [Resume(id, true), Resume(id, false)];
               var s' := Run(Step(s, Resume(id, false), cfg), answers, cfg);
               && s'.status == Healthy && s'.project == s.project && s'.retries == 0 && id !in s'.tasks
               && s'.child == Some(|s.children|) && |s'.children| == |s.children| + 1
               && !s'.children[|s.children|].gone && !s'.children[|s.children|].terminating
  {
    hide Inv, Step, Run, Config.Polls, FailedProbes;
    InvInitial(cfg);
    RunKeepsInv(INITIAL_SUP, before, cfg);
    var s := Run(INITIAL_SUP, before, cfg);
    BackoffEndsInRespawn(before, id, false, cfg);
    var s1 := Step(s, Resume(id, false), cfg);
    RespawnWaits(s, id, cfg);
    StepKeepsInv(s, Resume(id, false), cfg);
    ProbeRounds(s1, id, cfg.Polls() - 1, fails, cfg);
    RunOfJoin(s1, FailedProbes(id, fails), [Resume(id, true), Resume(id, false)], cfg);
    AnsweredProbe(Run(s1, FailedProbes(id, fails), cfg), id, cfg.Polls() - 1 - fails, cfg);
  }

  lemma RespawnWaits(s: Sup, id: nat, cfg: Config)
    requires cfg.Valid() && Named(s)
    requires id in s.tasks && s.tasks[id].RestartBackingOff? && s.Current(s.tasks[id].generation)
    ensures var s' := Step(s, Resume(id, false), cfg); Waits(s', id, cfg.Polls() - 1) && s'.project == s.project
  {
    hide Config.Polls;
  }

  /** A start changes nothing exactly when one is in flight or its project's process is healthy and tracked. */
  lemma StartJoinsIff(s: Sup, project: string, cfg: Config)
    requires cfg.Valid() && Named(s)
    ensures Step(s, StartCall(project), cfg) == s
            <==> s.starting.Some? || (s.status == Healthy && s.project == Some(project) && s.child.Some?)
  {
    hide Config.Polls;
  }

  /**
   * A start that finds another process tracked lets go of it at once and terminates it first; when that is over, and
   * nothing else has superseded it, it spawns for its project.
   */
  lemma StartReplaces(s: Sup, project: string, cfg: Config)
    requires cfg.Valid() && Inv(s, cfg) && s.starting.None? && s.child.Some?
    requires s.status != Healthy || s.project != Some(project)
    ensures Named(s)
    ensures var s', id, c := Step(s, StartCall(project), cfg), s.nextTask, s.child.value;
            && s' == s.(generation := s.generation + 1, nextTask := id + 1, starting := Some(id), child := None,
                        children := s.children[c := s.children[c].(terminating := true)])
                      .With(id, StartReaping(s.generation + 1, project, c, Grace))
  {
    hide TasksInv, BudgetInv, NoteSound;
    InvNames(s, cfg);
    assert ChildSound(s.children[s.child.value], true, s.generation, s.stopping);
  }

  lemma ReapedStartSpawns(s: Sup, id: nat, ok: bool, cfg: Config)
    requires cfg.Valid() && Inv(s, cfg) && id in s.tasks && s.tasks[id].StartReaping? && s.tasks[id].t == Reaped
    ensures Named(s)
    ensures var s', task := Step(s, Resume(id, ok), cfg), s.tasks[id];
            if task.generation == s.generation then
              && s'.status == Starting && s'.project == Some(task.project) && s'.retries == 0 && !s'.stopping
              && s'.generation == s.generation && s'.child == Some(|s.children|)
              && s'.children == s.children + [Child(s.generation, false, false, false, false, false)]
              && Waits(s', id, cfg.Polls() - 1) && s'.tasks[id].StartWaiting?
            else s' == s.With(id, StartSettled(task.generation))
  {
    hide Inv, Config.Polls;
    InvNames(s, cfg);
  }

  // ---------------------------------------------------------------- terminations and stops

  /**
   * Whoever awaits it, a termination goes on after each grace as the process has answered: reaped once it exited,
   * killed after the first grace without an exit, and abandoned after the second.
   */
  lemma GraceEscalates(s: Sup, id: nat, ok: bool, cfg: Config)
    requires cfg.Valid() && Inv(s, cfg) && id in s.tasks && Terminates(s.tasks[id]) && s.tasks[id].t != Reaped
    ensures Named(s)
    ensures var s', task, c := Step(s, Resume(id, ok), cfg), s.tasks[id], s.tasks[id].child;
            && c < |s.children|
            && (s.children[c].exited ==> s' == s.With(id, task.(t := Reaped)))
            && (!s.children[c].exited ==>
                  && s'.children == s.children[c := s'.children[c]] && s'.children[c].killed
                  && s' == s.(children := s'.children)
                            .With(id, task.(t := if task.t == Grace then LastGrace else Reaped))
                  && (s'.children[c].unanswered <==> s.children[c].unanswered || task.t == LastGrace))
  {
    hide Inv;
    InvNames(s, cfg);
  }

  /**
   * A stop forgets the tracked process at once, tells it to terminate, kills it when it does not exit in time, and has
   * stopped when that is over, whether or not the process answers. Without a process it has stopped at once.
   */
  lemma StopTakesDown(before: seq<Event>, exits: bool, cfg: Config)
    requires cfg.Valid()
    ensures var s := Run(INITIAL_SUP, before, cfg);
            && Named(s)
            && var id, s1, r := s.nextTask, Step(s, StopCall, cfg), Resume(s.nextTask, false);
               && s1.stopping && s1.child.None? && s1.starting.None? && s1.generation == s.generation + 1
               && (s.child.None? ==>
                     && s1.status == Stopped && s1.children == s.children
                     && id in s1.tasks && s1.tasks[id] == StopYielded(None))
               && (s.child.Some? ==>
                     var c := s.child.value;
                     var answers := if exits then [ChildExit(c), r, r] else [r, r, r];
                     var s' := Run(s1, answers, cfg);
                     && c < |s.children| && s1.children == s.children[c := s.children[c].(terminating := true)]
                     && s'.status == Stopped && id in s'.tasks && s'.tasks[id] == StopYielded(None)
                     && s'.children == s.children[c := if exits then s.children[c].(terminating := true, gone := true,
                                                                                   exited := true)
                                                       else Abandoned(s.children[c])])
  {
    hide RespawnsSince, Run, Config.Polls, BudgetInv, TasksInv, NoteSound, DoStart, LoopHead;
    InvInitial(cfg);
    RunKeepsInv(INITIAL_SUP, before, cfg);
    var s := Run(INITIAL_SUP, before, cfg);
    InvNames(s, cfg);
    if s.child.Some? {
      var c, r := s.child.value, Resume(s.nextTask, false);
      assert ChildSound(s.children[c], true, s.generation, s.stopping);
      var s1 := Step(s, StopCall, cfg);
      StepKeepsInv(s, StopCall, cfg);
      RunOfThree(s1, if exits then ChildExit(c) else r, r, r, cfg);
    }
  }

  lemma RunOfThree(s: Sup, a: Event, b: Event, c: Event, cfg: Config)
    requires cfg.Valid() && Inv(s, cfg)
    ensures Named(s) && Named(Step(s, a, cfg)) && Named(Step(Step(s, a, cfg), b, cfg))
    ensures Run(s, [a, b, c], cfg) == Step(Step(Step(s, a, cfg), b, cfg), c, cfg)
  {
    hide Inv, Step, Named;
    RunOfTwo(s, a, b, [c], cfg);
    assert [a, b] + [c] == [a, b, c];
    var s2 := Step(Step(s, a, cfg), b, cfg);
    InvNames(s2, cfg);
    assert [c][1..] == [];
    assert Run(Step(s2, c, cfg), [], cfg) == Step(s2, c, cfg);
  }

  /** A restart call stops, and what it does when that is over is a call to start for its project. */
  lemma RestartCallStarts(s: Sup, id: nat, project: string, ok: bool, cfg: Config)
    requires cfg.Valid() && Inv(s, cfg)
    ensures Named(s)
    ensures var stopped := Step(s, StopCall, cfg);
            && s.nextTask in stopped.tasks
            && Step(s, RestartCall(project), cfg)
               == stopped.With(s.nextTask, stopped.tasks[s.nextTask].(thenStart := Some(project)))
    ensures id in s.tasks && s.tasks[id] == StopYielded(Some(project)) ==>
              && Named(s.Without(id))
              && Step(s, Resume(id, ok), cfg) == Step(s.Without(id), StartCall(project), cfg)
  {
    hide Inv, Config.Polls, DoStart;
    InvNames(s, cfg);
  }

  // ---------------------------------------------------------------- the start in flight

  /** The start in flight, if any, is the one start of the current generation that has not settled. */
  ghost predicate FlightInv(s: Sup) {
    && (s.starting.Some? ==> s.starting.value in s.tasks)
    && (forall id <- s.tasks ::
          && id < s.nextTask
          && (s.starting == Some(id) ==> s.tasks[id].IsStart() && s.tasks[id].generation == s.generation)
          && (s.tasks[id].IsStart() && IsActive(s.tasks[id], s.generation) ==> s.starting == Some(id)))
  }

  lemma CallsKeepFlight(s: Sup, project: string, thenStart: Option<string>, cfg: Config)
    requires cfg.Valid() && Inv(s, cfg) && FlightInv(s)
    ensures FlightInv(CallStart(s, project, cfg)) && FlightInv(CallStop(s, thenStart))
  {
    hide RespawnsSince, TotalBackoff, ActiveSound, ChildSound, BudgetInv, Config.Polls, WaitAt;
  }

  /** A task that goes on stays a start or not, and of its generation; the start in flight ends with its task. */
  lemma OneTaskKeepsFlight(s: Sup, s': Sup, id: nat)
    requires FlightInv(s) && id in s.tasks
    requires s'.generation == s.generation && s'.nextTask == s.nextTask && s'.tasks - {id} == s.tasks - {id}
    requires if s'.starting != s.starting then s.starting == Some(id) && s'.starting.None? && id !in s'.tasks
             else id in s'.tasks || !s.tasks[id].IsStart() || s.starting != Some(id)
    requires id in s'.tasks && (s.tasks[id].IsStart() || s'.tasks[id].IsStart()) ==>
               && s.tasks[id].IsStart() && s'.tasks[id].IsStart()
               && s'.tasks[id].generation == s.tasks[id].generation
               && (IsEpisode(s'.tasks[id]) ==> IsEpisode(s.tasks[id]))
    ensures FlightInv(s')
  {
    hide Task.IsStart;
    OthersInFlight(s, s', id);
  }

  lemma StartKeepsFlight(s: Sup, id: nat, ok: bool, cfg: Config)
    requires cfg.Valid() && Named(s) && FlightInv(s) && id in s.tasks && s.tasks[id].IsStart()
    ensures FlightInv(ResumeTask(s, id, ok, cfg))
  {
    hide Config.Polls, WaitAt, ResumeWait, FlightInv, Named, IsActive;
    OneTaskKeepsFlight(s, ResumeTask(s, id, ok, cfg), id);
  }

  lemma RestartKeepsFlight(s: Sup, id: nat, ok: bool, cfg: Config)
    requires cfg.Valid() && Named(s) && FlightInv(s) && id in s.tasks && s.tasks[id].IsRestart()
    ensures FlightInv(ResumeTask(s, id, ok, cfg))
  {
    hide Config.Polls, WaitAt, ResumeWait, BackoffMs, FlightInv;
    OneTaskKeepsFlight(s, ResumeTask(s, id, ok, cfg), id);
  }

  lemma StopKeepsFlight(s: Sup, id: nat, ok: bool, cfg: Config)
    requires cfg.Valid() && Inv(s, cfg) && FlightInv(s) && id in s.tasks && s.tasks[id].IsStop()
    ensures FlightInv(ResumeTask(s, id, ok, cfg))
  {
    hide Inv, CallStart, FlightInv;
    InvNames(s, cfg);
    WithoutKeepsInv(s, id, cfg);
    OneTaskKeepsFlight(s, s.Without(id), id);
    if s.tasks[id].StopTerminating? { OneTaskKeepsFlight(s, ResumeTask(s, id, ok, cfg), id); }
    else if s.tasks[id].thenStart.Some? {
      CallsKeepFlight(s.Without(id), s.tasks[id].thenStart.value, None, cfg);
    }
  }

  /** The tasks that a resumption leaves alone. */
  lemma OthersInFlight(s: Sup, s': Sup, id: nat)
    requires s'.tasks - {id} == s.tasks - {id}
    ensures forall j | j != id :: j in s.tasks <==> j in s'.tasks
    ensures forall j | j != id && j in s.tasks :: s.tasks[j] == s'.tasks[j]
  {
    assert forall j | j != id :: j in s.tasks <==> j in s.tasks - {id};
    assert forall j | j != id :: j in s'.tasks <==> j in s'.tasks - {id};
    assert forall j | j != id && j in s.tasks :: s.tasks[j] == (s'.tasks - {id})[j] == s'.tasks[j];
  }

  lemma LossKeepsFlight(s: Sup, c: nat, cfg: Config)
    requires FlightInv(s) && c < |s.children|
    ensures FlightInv(OnChildGone(s, c, cfg))
  {
    hide BackoffMs;
  }

  lemma StepKeepsFlight(s: Sup, e: Event, cfg: Config)
    requires cfg.Valid() && Inv(s, cfg) && FlightInv(s)
    ensures FlightInv(Step(s, e, cfg))
  {
    hide CallStart, CallStop, OnChildGone, ResumeTask, Inv;
    InvNames(s, cfg);
    match e {
      case StartCall(project) => CallsKeepFlight(s, project, None, cfg);
      case StopCall => CallsKeepFlight(s, "", None, cfg);
      case RestartCall(project) => CallsKeepFlight(s, "", Some(project), cfg);
      case ChildExit(c) =>
        if c < |s.children| && !s.children[c].exited {
          LossKeepsFlight(s.Mark(c, s.children[c].(exited := true)), c, cfg);
        }
      case ChildError(c) => if c < |s.children| && !s.children[c].gone { LossKeepsFlight(s, c, cfg); }
      case Resume(id, ok) =>
        if id in s.tasks {
          if s.tasks[id].IsStop() { StopKeepsFlight(s, id, ok, cfg); }
          else if s.tasks[id].IsRestart() { RestartKeepsFlight(s, id, ok, cfg); }
          else { StartKeepsFlight(s, id, ok, cfg); }
        }
    }
  }

  lemma {:induction false} RunKeepsFlight(s: Sup, events: seq<Event>, cfg: Config)
    requires cfg.Valid() && Inv(s, cfg) && FlightInv(s)
    ensures FlightInv(Run(s, events, cfg))
    decreases |events|
  {
    hide Inv, Step, FlightInv;
    if events != [] {
      InvNames(s, cfg);
      StepKeepsFlight(s, events[0], cfg);
      StepKeepsInv(s, events[0], cfg);
      RunKeepsFlight(Step(s, events[0], cfg), events[1..], cfg);
    }
  }

  /**
   * In every reachable state a start is in flight as long as a start of the current generation is under way, and no
   * longer than until that has settled: later starts join it and never wait for one that is over.
   */
  lemma StartInFlightIff(events: seq<Event>, cfg: Config)
    requires cfg.Valid()
    ensures var s := Run(INITIAL_SUP, events, cfg);
            && (forall id <- s.tasks | s.tasks[id].IsStart() && IsActive(s.tasks[id], s.generation) ::
                  s.starting == Some(id))
            && (s.starting.Some? ==>
                  && s.starting.value in s.tasks && s.tasks[s.starting.value].IsStart()
                  && s.tasks[s.starting.value].generation == s.generation)
  {
    hide Inv, Run;
    InvInitial(cfg);
    InitialFlight();
    RunKeepsFlight(INITIAL_SUP, events, cfg);
  }

  lemma InitialFlight()
    ensures FlightInv(INITIAL_SUP)
  {
  }
}
