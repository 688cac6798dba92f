/**
 * What the supervisor's state says about real processes: when it is healthy without one, and when two are alive.
 */
module SupervisedProcesses {
  import opened Basics
  import opened DaemonSupervision

  // ---------------------------------------------------------------- healthy without a process

  /** A start of the current generation is still reaping the process it replaces. */
  ghost predicate Reaping(s: Sup) {
    exists id :: id in s.tasks && IsReaping(s.tasks[id], s.generation)
  }

  predicate IsReaping(task: Task, generation: nat) { task.StartReaping? && task.generation == generation }

  /** The process of the last entry into healthy was lost before that entry. */
  predicate LostBeforeEntry(notes: seq<Note>) {
    notes != [] && notes[|notes| - 1].BecameHealthy? && notes[|notes| - 1].lost
  }

  ghost predicate HealthInv(s: Sup) {
    s.status == Healthy ==> (s.child.None? <==> s.stopping || Reaping(s) || LostBeforeEntry(s.notes))
  }

  ghost predicate ReapingElsewhere(s: Sup, id: nat) {
    exists j :: j in s.tasks && j != id && IsReaping(s.tasks[j], s.generation)
  }

  lemma ReapingSplits(s: Sup, s': Sup, id: nat)
    requires s'.generation == s.generation && s'.tasks - {id} == s.tasks - {id}
    ensures Reaping(s) <==> ReapingElsewhere(s, id) || (id in s.tasks && IsReaping(s.tasks[id], s.generation))
    ensures Reaping(s') <==> ReapingElsewhere(s, id) || (id in s'.tasks && IsReaping(s'.tasks[id], s.generation))
  {
    hide IsReaping;
    assert forall j | j != id :: j in s.tasks <==> j in s.tasks - {id};
    assert forall j | j != id :: j in s'.tasks <==> j in s'.tasks - {id};
    assert forall j | j != id && j in s.tasks :: s.tasks[j] == (s'.tasks - {id})[j] == s'.tasks[j];
  }

  lemma CallStartKeepsHealth(s: Sup, project: string, cfg: Config)
    requires cfg.Valid() && Inv(s, cfg) && HealthInv(s)
    ensures HealthInv(CallStart(s, project, cfg))
  {
    hide BudgetInv, RespawnsSince, ActiveSound, WaitAt;
    var s' := CallStart(s, project, cfg);
    if s' != s && s.child.Some? { assert IsReaping(s'.tasks[s.nextTask], s'.generation); }
  }

  lemma CallStopKeepsHealth(s: Sup, thenStart: Option<string>, cfg: Config)
    requires cfg.Valid() && Inv(s, cfg) && HealthInv(s)
    ensures HealthInv(CallStop(s, thenStart))
  {
  }

  /** What an active task may rely on, and that no other task is active. */
  lemma ActiveKnows(s: Sup, id: nat, cfg: Config)
    requires Inv(s, cfg) && id in s.tasks && IsActive(s.tasks[id], s.generation)
    ensures ActiveSound(s.tasks[id], s.children, s.child, s.stopping, s.status, s.retries, cfg)
    ensures s.child.Some? ==> s.child.value < |s.children| && !s.children[s.child.value].gone
    ensures !ReapingElsewhere(s, id)
  {
    hide BudgetInv, NoteSound, ActiveSound, TaskSound;
  }

  lemma ResumeStartKeepsHealth(s: Sup, id: nat, ok: bool, cfg: Config)
    requires cfg.Valid() && Inv(s, cfg) && HealthInv(s) && id in s.tasks
    requires s.tasks[id].IsStart()
    ensures HealthInv(ResumeTask(s, id, ok, cfg))
  {
    hide Inv, Reaping, ReapingElsewhere, TotalBackoff, WaitAt, ResumeWait, Config.Polls;
    InvNames(s, cfg);
    var task, s' := s.tasks[id], ResumeTask(s, id, ok, cfg);
    if IsActive(task, s.generation) { ActiveKnows(s, id, cfg); }
    ReapingSplits(s, s', id);
  }

  lemma ResumeRestartKeepsHealth(s: Sup, id: nat, ok: bool, cfg: Config)
    requires cfg.Valid() && Inv(s, cfg) && HealthInv(s) && id in s.tasks
    requires s.tasks[id].IsRestart()
    ensures HealthInv(ResumeTask(s, id, ok, cfg))
  {
    hide Inv, Reaping, ReapingElsewhere, TotalBackoff, WaitAt, ResumeWait, Config.Polls, BackoffMs;
    InvNames(s, cfg);
    var task, s' := s.tasks[id], ResumeTask(s, id, ok, cfg);
    if IsActive(task, s.generation) { ActiveKnows(s, id, cfg); }
    ReapingSplits(s, s', id);
  }

  lemma ResumeStopKeepsHealth(s: Sup, id: nat, ok: bool, cfg: Config)
    requires cfg.Valid() && Inv(s, cfg) && HealthInv(s) && id in s.tasks
    requires s.tasks[id].IsStop()
    ensures HealthInv(ResumeTask(s, id, ok, cfg))
  {
    hide Inv, CallStart;
    InvNames(s, cfg);
    var rest := s.Without(id);
    assert forall j | j != id :: j in s.tasks <==> j in rest.tasks;
    assert forall j | j != id && j in s.tasks :: s.tasks[j] == rest.tasks[j];
    WithoutKeepsInv(s, id, cfg);
    if s.tasks[id].StopYielded? {
      assert HealthInv(rest);
      if s.tasks[id].thenStart.Some? { CallStartKeepsHealth(rest, s.tasks[id].thenStart.value, cfg); }
    } else {
      var s' := ResumeTask(s, id, ok, cfg);
      assert forall j | j != id :: j in s.tasks <==> j in s'.tasks;
      assert forall j | j != id && j in s.tasks :: s.tasks[j] == s'.tasks[j];
    }
  }

  lemma ChildGoneKeepsHealth(s: Sup, c: nat, cfg: Config)
    requires cfg.Valid() && HealthInv(s) && c < |s.children|
    ensures HealthInv(OnChildGone(s, c, cfg))
  {
    hide BackoffMs;
  }

  lemma StepKeepsHealth(s: Sup, e: Event, cfg: Config)
    requires cfg.Valid() && Inv(s, cfg) && HealthInv(s)
    ensures HealthInv(Step(s, e, cfg))
  {
    hide CallStart, CallStop, OnChildGone, ResumeTask, Inv;
    InvNames(s, cfg);
    match e {
      case StartCall(project) => CallStartKeepsHealth(s, project, cfg);
      case StopCall => CallStopKeepsHealth(s, None, cfg);
      case RestartCall(project) => CallStopKeepsHealth(s, Some(project), cfg);
      case ChildExit(c) =>
        if c < |s.children| && !s.children[c].exited {
          ChildGoneKeepsHealth(s.Mark(c, s.children[c].(exited := true)), c, cfg);
        }
      case ChildError(c) => if c < |s.children| && !s.children[c].gone { ChildGoneKeepsHealth(s, c, cfg); }
      case Resume(id, ok) =>
        if id in s.tasks {
          var task := s.tasks[id];
          if task.IsStop() { ResumeStopKeepsHealth(s, id, ok, cfg); }
          else if task.IsRestart() {
            ResumeRestartKeepsHealth(s, id, ok, cfg);
          } else { ResumeStartKeepsHealth(s, id, ok, cfg); }
        }
    }
  }

  lemma {:induction false} RunKeepsHealth(s: Sup, events: seq<Event>, cfg: Config)
    requires cfg.Valid() && Inv(s, cfg) && HealthInv(s)
    ensures HealthInv(Run(s, events, cfg))
    decreases |events|
  {
    hide Inv, Step, HealthInv;
    if events != [] {
      InvNames(s, cfg);
      StepKeepsHealth(s, events[0], cfg);
      StepKeepsInv(s, events[0], cfg);
      RunKeepsHealth(Step(s, events[0], cfg), events[1..], cfg);
    }
  }

  /**
   * In every reachable state, a healthy supervisor tracks a process, one not known to be gone, exactly unless it is
   * stopping, a start of the current generation is reaping the process it replaces, or the process was lost before the
   * entry into healthy.
   */
  lemma HealthyHasProcessIff(events: seq<Event>, cfg: Config)
    requires cfg.Valid()
    ensures var s := Run(INITIAL_SUP, events, cfg);
            s.status == Healthy ==>
              && (s.child.None? <==> s.stopping || Reaping(s) || LostBeforeEntry(s.notes))
              && (s.child.Some? ==> s.child.value < |s.children| && !s.children[s.child.value].gone)
  {
    hide TasksInv, BudgetInv, Run;
    InvInitial(cfg);
    RunKeepsInv(INITIAL_SUP, events, cfg);
    assert HealthInv(INITIAL_SUP);
    RunKeepsHealth(INITIAL_SUP, events, cfg);
    var s := Run(INITIAL_SUP, events, cfg);
    if s.child.Some? {
      var c := s.child.value;
      assert ChildSound(s.children[c], true, s.generation, s.stopping);
    }
  }

  /** The first two reasons occur: right after a stop, and right after a start for another project. */
  lemma HealthyDuringStopAndReplacement(cfg: Config)
    requires cfg.Valid()
    ensures var events := [StartCall("p"), Resume(0, true), Resume(0, true), Resume(0, true)];
            var stopped := Run(INITIAL_SUP, events + [StopCall], cfg);
            var replaced := Run(INITIAL_SUP, events + [StartCall("q")], cfg);
            && stopped.status == Healthy && stopped.child.None? && stopped.stopping
            && replaced.status == Healthy && replaced.child.None? && Reaping(replaced)
            && |stopped.children| == |replaced.children| == 1 && !stopped.children[0].gone && !replaced.children[0].gone
  {
    hide RespawnsSince, Config.Polls, Inv;
    var events := [StartCall("p"), Resume(0, true), Resume(0, true), Resume(0, true)];
    InvInitial(cfg);
    RunOf4(INITIAL_SUP, events[0], events[1], events[2], events[3], cfg);
    RunThenStep(INITIAL_SUP, events, StopCall, cfg);
    RunThenStep(INITIAL_SUP, events, StartCall("q"), cfg);
    var healthy := Run(INITIAL_SUP, events, cfg);
    assert healthy.status == Healthy && healthy.child == Some(0) && healthy.project == Some("p");
    var replaced := Step(healthy, StartCall("q"), cfg);
    assert IsReaping(replaced.tasks[1], replaced.generation);
  }

  // ---------------------------------------------------------------- two processes

  /** Some coroutine is within one of the two graces of terminating the process. */
  ghost predicate BeingTerminated(tasks: map<nat, Task>, c: nat) {
    exists id :: id in tasks && Awaits(tasks[id], c)
  }

  predicate Awaits(task: Task, c: nat) { Terminates(task) && task.child == c && task.t != Reaped }

  /** Every process not known to be gone is tracked, being terminated, or outlived its termination. */
  ghost predicate Accounted(s: Sup) {
    forall c: nat | c < |s.children| && !s.children[c].gone ::
      s.child == Some(c) || s.children[c].unanswered || BeingTerminated(s.tasks, c)
  }

  lemma CallStartAccounts(s: Sup, project: string, cfg: Config)
    requires cfg.Valid() && Inv(s, cfg) && Accounted(s)
    ensures Accounted(CallStart(s, project, cfg))
  {
    hide BudgetInv, RespawnsSince, ActiveSound, WaitAt, Awaits;
    var s' := CallStart(s, project, cfg);
    assert s.nextTask !in s.tasks;
    forall c: nat | c < |s.children| && BeingTerminated(s.tasks, c)
      ensures BeingTerminated(s'.tasks, c)
    {
      var id :| id in s.tasks && Awaits(s.tasks[id], c);
      assert Awaits(s'.tasks[id], c);
    }
    if s' != s && s.child.Some? && !s.children[s.child.value].gone { BegunAwaits(s'.tasks, s.nextTask, s.child.value); }
  }

  lemma BegunAwaits(tasks: map<nat, Task>, id: nat, c: nat)
    requires id in tasks && Terminates(tasks[id]) && tasks[id].child == c && tasks[id].t == Grace
    ensures BeingTerminated(tasks, c)
  {
    assert Awaits(tasks[id], c);
  }

  lemma CallStopAccounts(s: Sup, thenStart: Option<string>, cfg: Config)
    requires cfg.Valid() && Inv(s, cfg) && Accounted(s)
    ensures Accounted(CallStop(s, thenStart))
  {
    hide BudgetInv, RespawnsSince, ActiveSound, Awaits;
    var s' := CallStop(s, thenStart);
    assert s.nextTask !in s.tasks;
    forall c: nat | c < |s.children| && BeingTerminated(s.tasks, c)
      ensures BeingTerminated(s'.tasks, c)
    {
      var id :| id in s.tasks && Awaits(s.tasks[id], c);
      assert Awaits(s'.tasks[id], c);
    }
    if s.child.Some? && !s.children[s.child.value].gone { BegunAwaits(s'.tasks, s.nextTask, s.child.value); }
  }

  /** Tasks other than one are as they were. */
  ghost predicate OthersSame(s: Sup, s': Sup, id: nat) {
    forall j | j != id && j in s.tasks :: j in s'.tasks && s.tasks[j] == s'.tasks[j]
  }

  lemma OthersStillAwait(s: Sup, s': Sup, id: nat, c: nat)
    requires BeingTerminated(s.tasks, c) && OthersSame(s, s', id) && id in s.tasks && !Awaits(s.tasks[id], c)
    ensures BeingTerminated(s'.tasks, c)
  {
    hide Awaits;
    var j :| j in s.tasks && Awaits(s.tasks[j], c);
    assert Awaits(s'.tasks[j], c);
  }

  /** One more grace of a termination: the process has gone, or is still awaited, or has outlived it. */
  lemma GraceAccounts(s: Sup, id: nat, s': Sup, cfg: Config)
    requires Inv(s, cfg) && Accounted(s) && id in s.tasks && Terminates(s.tasks[id]) && s.tasks[id].t != Reaped
    requires var (r, t') := ResumeTerminate(s, s.tasks[id].child, s.tasks[id].t);
             s' == r.With(id, s.tasks[id].(t := t'))
    ensures Accounted(s')
  {
    hide BudgetInv, RespawnsSince, ActiveSound, BeingTerminated;
    var d := s.tasks[id].child;
    forall c: nat | c < |s'.children| && !s'.children[c].gone
      ensures s'.child == Some(c) || s'.children[c].unanswered || BeingTerminated(s'.tasks, c)
    {
      assert ChildSound(s.children[c], s.child == Some(c), s.generation, s.stopping);
      if BeingTerminated(s.tasks, c) && c != d {
        OthersStillAwait(s, s', id, c);
      } else if c == d && !s'.children[c].unanswered {
        AwaitedByTask(s'.tasks, id, c);
      }
    }
  }

  lemma AwaitedByTask(tasks: map<nat, Task>, id: nat, c: nat)
    requires id in tasks && Awaits(tasks[id], c)
    ensures BeingTerminated(tasks, c)
  {
  }

  /** A step that takes no grace away, marks nothing gone and lets go only of a process it begins to terminate. */
  lemma OtherStepAccounts(s: Sup, s': Sup, id: nat)
    requires Accounted(s) && id in s.tasks && OthersSame(s, s', id)
    requires !Terminates(s.tasks[id]) || s.tasks[id].t == Reaped
    requires |s.children| <= |s'.children|
    requires forall c: nat | c < |s.children| && !s'.children[c].gone ::
               && !s.children[c].gone && (s.children[c].unanswered ==> s'.children[c].unanswered)
               && (s.child == Some(c) ==> s'.child == Some(c) || BeingTerminated(s'.tasks, c))
    requires forall c: nat | |s.children| <= c < |s'.children| :: s'.child == Some(c)
    ensures Accounted(s')
  {
    forall c: nat | c < |s.children| && !s'.children[c].gone && BeingTerminated(s.tasks, c)
      ensures BeingTerminated(s'.tasks, c)
    {
      OthersStillAwait(s, s', id, c);
    }
  }

  lemma ResumeStartAccounts(s: Sup, id: nat, ok: bool, cfg: Config)
    requires cfg.Valid() && Inv(s, cfg) && Accounted(s) && id in s.tasks
    requires s.tasks[id].IsStart()
    ensures Accounted(ResumeTask(s, id, ok, cfg))
  {
    hide BudgetInv, RespawnsSince, TotalBackoff, WaitAt, ResumeWait;
    hide Config.Polls, Accounted, ResumeTerminate, BeingTerminated;
    var task, s' := s.tasks[id], ResumeTask(s, id, ok, cfg);
    if Terminates(task) && task.t != Reaped {
      GraceAccounts(s, id, s', cfg);
    } else {
      if id in s'.tasks && s'.tasks[id].StartDiscarding? && s'.tasks[id].t == Grace {
        BegunAwaits(s'.tasks, id, s'.tasks[id].child);
      }
      OtherStepAccounts(s, s', id);
    }
  }

  lemma ResumeRestartAccounts(s: Sup, id: nat, ok: bool, cfg: Config)
    requires cfg.Valid() && Inv(s, cfg) && Accounted(s) && id in s.tasks
    requires s.tasks[id].IsRestart()
    ensures Accounted(ResumeTask(s, id, ok, cfg))
  {
    hide BudgetInv, RespawnsSince, TotalBackoff, WaitAt, ResumeWait;
    hide Config.Polls, BackoffMs, Accounted, ResumeTerminate, BeingTerminated;
    var task, s' := s.tasks[id], ResumeTask(s, id, ok, cfg);
    if Terminates(task) && task.t != Reaped {
      GraceAccounts(s, id, s', cfg);
    } else {
      if id in s'.tasks && s'.tasks[id].RestartDiscarding? && s'.tasks[id].t == Grace {
        BegunAwaits(s'.tasks, id, s'.tasks[id].child);
      }
      OtherStepAccounts(s, s', id);
    }
  }

  lemma ResumeStopAccounts(s: Sup, id: nat, ok: bool, cfg: Config)
    requires cfg.Valid() && Inv(s, cfg) && Accounted(s) && id in s.tasks
    requires s.tasks[id].IsStop()
    ensures Accounted(ResumeTask(s, id, ok, cfg))
  {
    hide BudgetInv, RespawnsSince, TotalBackoff, CallStart, Accounted, ResumeTerminate, BeingTerminated;
    var task, s' := s.tasks[id], ResumeTask(s, id, ok, cfg);
    if Terminates(task) && task.t != Reaped {
      GraceAccounts(s, id, s', cfg);
    } else if task.StopTerminating? {
      OtherStepAccounts(s, s', id);
    } else {
      OtherStepAccounts(s, s.Without(id), id);
      WithoutKeepsInv(s, id, cfg);
      if task.thenStart.Some? { CallStartAccounts(s.Without(id), task.thenStart.value, cfg); }
    }
  }

  lemma ChildGoneAccounts(s: Sup, c: nat, cfg: Config)
    requires cfg.Valid() && Accounted(s) && c < |s.children| && s.nextTask !in s.tasks
    ensures Accounted(OnChildGone(s, c, cfg))
  {
    hide BackoffMs, Awaits;
    var s' := OnChildGone(s, c, cfg);
    forall d: nat | d < |s.children| && BeingTerminated(s.tasks, d)
      ensures BeingTerminated(s'.tasks, d)
    {
      var id :| id in s.tasks && Awaits(s.tasks[id], d);
      assert Awaits(s'.tasks[id], d);
    }
  }

  lemma StepAccounts(s: Sup, e: Event, cfg: Config)
    requires cfg.Valid() && Inv(s, cfg) && Accounted(s)
    ensures Accounted(Step(s, e, cfg))
  {
    hide CallStart, CallStop, OnChildGone, ResumeTask, ChildrenInv, BudgetInv;
    InvNames(s, cfg);
    match e {
      case StartCall(project) => CallStartAccounts(s, project, cfg);
      case StopCall => CallStopAccounts(s, None, cfg);
      case RestartCall(project) => CallStopAccounts(s, Some(project), cfg);
      case ChildExit(c) =>
        if c < |s.children| && !s.children[c].exited {
          ChildGoneAccounts(s.Mark(c, s.children[c].(exited := true)), c, cfg);
        }
      case ChildError(c) => if c < |s.children| && !s.children[c].gone { ChildGoneAccounts(s, c, cfg); }
      case Resume(id, ok) =>
        if id in s.tasks {
          var task := s.tasks[id];
          if task.IsStop() { ResumeStopAccounts(s, id, ok, cfg); }
          else if task.IsRestart() {
            ResumeRestartAccounts(s, id, ok, cfg);
          } else { ResumeStartAccounts(s, id, ok, cfg); }
        }
    }
  }

  lemma {:induction false} RunAccounts(s: Sup, events: seq<Event>, cfg: Config)
    requires cfg.Valid() && Inv(s, cfg) && Accounted(s)
    ensures Accounted(Run(s, events, cfg))
    decreases |events|
  {
    hide Inv, Step, Accounted;
    if events != [] {
      InvNames(s, cfg);
      StepAccounts(s, events[0], cfg);
      StepKeepsInv(s, events[0], cfg);
      RunAccounts(Step(s, events[0], cfg), events[1..], cfg);
    }
  }

  // ---------------------------------------------------------------- spawning beside another process

  /** Either nothing is spawned, or exactly one process is, with nothing tracked before and no process lost by it. */
  ghost predicate SpawnsAlone(s: Sup, s': Sup) {
    var n := |s.children|;
    |s'.children| > n ==>
      && |s'.children| == n + 1 && s.child.None? && s'.child == Some(n) && !s'.children[n].gone
      && forall c: nat | c < n :: s'.children[c] == s.children[c]
  }

  lemma CallStartSpawnsAlone(s: Sup, project: string, cfg: Config)
    requires cfg.Valid() && Named(s)
    ensures SpawnsAlone(s, CallStart(s, project, cfg))
  {
    hide WaitAt, Config.Polls;
  }

  lemma ResumeSpawnsAlone(s: Sup, id: nat, ok: bool, cfg: Config)
    requires cfg.Valid() && Inv(s, cfg) && id in s.tasks
    ensures SpawnsAlone(s, ResumeTask(s, id, ok, cfg))
  {
    hide BudgetInv, RespawnsSince, TotalBackoff, BackoffMs, WaitAt;
    hide ResumeWait, Config.Polls, CallStart, ChildSound, TaskSound;
    InvNames(s, cfg);
    if s.tasks[id].StopYielded? && s.tasks[id].thenStart.Some? {
      CallStartSpawnsAlone(s.Without(id), s.tasks[id].thenStart.value, cfg);
    }
  }

  lemma StepSpawnsAlone(s: Sup, e: Event, cfg: Config)
    requires cfg.Valid() && Inv(s, cfg)
    ensures SpawnsAlone(s, Step(s, e, cfg))
  {
    hide CallStart, ResumeTask, Inv, BackoffMs;
    InvNames(s, cfg);
    match e {
      case StartCall(project) => CallStartSpawnsAlone(s, project, cfg);
      case Resume(id, ok) => if id in s.tasks { ResumeSpawnsAlone(s, id, ok, cfg); }
      case _ =>
    }
  }

  /** Two processes are not known to be gone. */
  ghost predicate TwoAlive(s: Sup) {
    exists c: nat, d: nat :: c < d < |s.children| && !s.children[c].gone && !s.children[d].gone
  }

  /** A process not known to be gone is within its termination, or outlived it. */
  ghost predicate Lingering(s: Sup) {
    exists c: nat ::
      c < |s.children| && !s.children[c].gone && (s.children[c].unanswered || BeingTerminated(s.tasks, c))
  }

  /**
   * Whenever an event of any run spawns a process, another one is alive beside it exactly when, before the event, some
   * process was still within one of the two graces of its termination, whoever awaits it, or had outlived both.
   */
  lemma SecondProcessIff(events: seq<Event>, e: Event, cfg: Config)
    requires cfg.Valid()
    ensures var s := Run(INITIAL_SUP, events, cfg);
            && Named(s)
            && var s' := Step(s, e, cfg);
               |s'.children| > |s.children| ==>
                 && |s'.children| == |s.children| + 1
                 && ((exists c: nat :: c < |s.children| && !s'.children[c].gone) <==> Lingering(s))
  {
    hide Inv, Step, BeingTerminated, Named, Run;
    ReachableIsAccounted(events, cfg);
    var s := Run(INITIAL_SUP, events, cfg);
    StepSpawnsAlone(s, e, cfg);
  }

  lemma ReachableIsAccounted(events: seq<Event>, cfg: Config)
    requires cfg.Valid()
    ensures var s := Run(INITIAL_SUP, events, cfg);
            Inv(s, cfg) && Named(s) && Accounted(s)
  {
    hide Inv, Run;
    InvInitial(cfg);
    RunKeepsInv(INITIAL_SUP, events, cfg);
    RunAccounts(INITIAL_SUP, events, cfg);
    InvNames(Run(INITIAL_SUP, events, cfg), cfg);
  }

  // ---------------------------------------------------------------- a caller that waits

  /** The event begins a new start: not one that joins a start in flight, or finds its project healthy. */
  predicate Begins(s: Sup, e: Event) {
    && Starts(s, e)
    && s.starting.None?
    && !(s.status == Healthy && s.child.Some? && s.project == Some(ProjectOf(s, e)))
  }

  function ProjectOf(s: Sup, e: Event): string
    requires Starts(s, e)
  {
    if e.StartCall? then e.project else s.tasks[e.id].thenStart.value
  }

  ghost predicate NoneUnanswered(s: Sup) { forall c: nat | c < |s.children| :: !s.children[c].unanswered }

  /** No start begins while a live process is being terminated, and no second grace runs out. */
  ghost predicate Patient(s: Sup, events: seq<Event>, cfg: Config)
    requires cfg.Valid()
    decreases |events|
  {
    && NoneUnanswered(s)
    && (events == [] || !Named(s)
        || (PatientAt(s, events[0]) && Patient(Step(s, events[0], cfg), events[1..], cfg)))
  }

  ghost predicate PatientAt(s: Sup, e: Event) {
    Begins(s, e) ==> forall c: nat | c < |s.children| && !s.children[c].gone :: !BeingTerminated(s.tasks, c)
  }

  /** The only processes not known to be gone are this one, if any. */
  predicate OnlyAlive(children: seq<Child>, c: nat) {
    forall d: nat | d < |children| && !children[d].gone :: d == c
  }

  /** At most one process is alive, and an active start or restart is at work on that one; none while it backs off. */
  ghost predicate Sole(s: Sup) {
    && !TwoAlive(s)
    && (forall id <- s.tasks | IsActive(s.tasks[id], s.generation) && NamesChild(s.tasks[id]) ::
          OnlyAlive(s.children, s.tasks[id].child))
    && (forall id <- s.tasks | IsActive(s.tasks[id], s.generation) && s.tasks[id].RestartBackingOff? ::
          forall d: nat | d < |s.children| :: s.children[d].gone)
  }

  lemma CallStartStaysSole(s: Sup, project: string, cfg: Config)
    requires cfg.Valid() && Inv(s, cfg) && Accounted(s) && Sole(s) && NoneUnanswered(s)
    requires s.starting.None? && !(s.status == Healthy && s.project == Some(project) && s.child.Some?) ==>
               forall c: nat | c < |s.children| && !s.children[c].gone :: !BeingTerminated(s.tasks, c)
    ensures Sole(CallStart(s, project, cfg))
  {
    hide BudgetInv, RespawnsSince, ActiveSound, WaitAt, BeingTerminated, Config.Polls;
    if s.child.Some? { assert ChildSound(s.children[s.child.value], true, s.generation, s.stopping); }
  }

  lemma CallStopStaysSole(s: Sup, thenStart: Option<string>, cfg: Config)
    requires cfg.Valid() && Inv(s, cfg) && Sole(s)
    ensures Sole(CallStop(s, thenStart))
  {
    hide BudgetInv, RespawnsSince, ActiveSound;
  }

  predicate SameLosses(s: Sup, s': Sup) {
    |s'.children| == |s.children| && forall c: nat | c < |s.children| :: s'.children[c].gone == s.children[c].gone
  }

  /** A coroutine that goes on with the same process, and spawns none, keeps that one the only one alive. */
  lemma SameProcessStaysSole(s: Sup, s': Sup, id: nat)
    requires Sole(s) && SameLosses(s, s') && s'.generation == s.generation && id in s.tasks
    requires forall j | j != id && j in s'.tasks :: j in s.tasks && s'.tasks[j] == s.tasks[j]
    requires id in s'.tasks && IsActive(s'.tasks[id], s.generation) && NamesChild(s'.tasks[id]) ==>
               IsActive(s.tasks[id], s.generation) && NamesChild(s.tasks[id]) && s'.tasks[id].child == s.tasks[id].child
    requires id in s'.tasks && IsActive(s'.tasks[id], s.generation) && s'.tasks[id].RestartBackingOff? ==>
               forall c: nat | c < |s.children| :: s.children[c].gone
    ensures Sole(s')
  {
    hide IsActive, NamesChild;
  }

  lemma ResumeReapingStaysSole(s: Sup, id: nat, ok: bool, cfg: Config)
    requires cfg.Valid() && Inv(s, cfg) && Sole(s) && NoneUnanswered(s) && id in s.tasks && s.tasks[id].StartReaping?
    ensures Sole(ResumeTask(s, id, ok, cfg))
  {
    hide BudgetInv, RespawnsSince, TotalBackoff, WaitAt, ResumeWait, Config.Polls, ActiveSound, ChildSound;
    if IsActive(s.tasks[id], s.generation) { ActiveIsOnly(s, id, cfg); }
  }

  lemma ResumeStartStaysSole(s: Sup, id: nat, ok: bool, cfg: Config)
    requires cfg.Valid() && Inv(s, cfg) && Sole(s) && id in s.tasks
    requires s.tasks[id].StartWaiting? || s.tasks[id].StartDiscarding? || s.tasks[id].StartSettled?
    ensures Sole(ResumeTask(s, id, ok, cfg))
  {
    hide BudgetInv, RespawnsSince, TotalBackoff, WaitAt, ResumeWait;
    hide Config.Polls, ActiveSound, ChildSound, DoStart, Sole;
    hide OneActive, TerminationSound;
    SameProcessStaysSole(s, ResumeTask(s, id, ok, cfg), id);
  }

  lemma RespawnStaysSole(s: Sup, id: nat, ok: bool, cfg: Config)
    requires cfg.Valid() && Inv(s, cfg) && Sole(s) && id in s.tasks && s.tasks[id].RestartBackingOff?
    ensures Sole(ResumeTask(s, id, ok, cfg))
  {
    hide BudgetInv, RespawnsSince, TotalBackoff, WaitAt, Config.Polls, ActiveSound, ChildSound;
    if IsActive(s.tasks[id], s.generation) { ActiveIsOnly(s, id, cfg); }
  }

  lemma ResumeRestartStaysSole(s: Sup, id: nat, ok: bool, cfg: Config)
    requires cfg.Valid() && Inv(s, cfg) && Sole(s) && NoneUnanswered(s) && id in s.tasks
    requires s.tasks[id].RestartWaiting? || s.tasks[id].RestartDiscarding?
    ensures Sole(ResumeTask(s, id, ok, cfg))
  {
    hide BudgetInv, RespawnsSince, TotalBackoff, WaitAt, ResumeWait;
    hide Config.Polls, ActiveSound, ChildSound, BackoffMs, TwoAlive;
    hide OneActive;
    SameProcessStaysSole(s, ResumeTask(s, id, ok, cfg), id);
  }

  lemma ResumeStopStaysSole(s: Sup, id: nat, ok: bool, cfg: Config)
    requires cfg.Valid() && Inv(s, cfg) && Accounted(s) && Sole(s) && NoneUnanswered(s) && id in s.tasks
    requires s.tasks[id].IsStop() && PatientAt(s, Resume(id, ok))
    ensures Sole(ResumeTask(s, id, ok, cfg))
  {
    hide BudgetInv, RespawnsSince, TotalBackoff, ActiveSound, ChildSound, CallStart, BeingTerminated;
    if s.tasks[id].StopYielded? && s.tasks[id].thenStart.Some? {
      var rest := s.Without(id);
      WithoutKeepsInv(s, id, cfg);
      forall c: nat | c < |s.children| && BeingTerminated(rest.tasks, c)
        ensures BeingTerminated(s.tasks, c)
      {
        FewerTasksAwait(s.tasks, id, c);
      }
      OtherStepAccounts(s, rest, id);
      CallStartStaysSole(rest, s.tasks[id].thenStart.value, cfg);
    }
  }

  lemma FewerTasksAwait(tasks: map<nat, Task>, id: nat, c: nat)
    requires BeingTerminated(tasks - {id}, c)
    ensures BeingTerminated(tasks, c)
  {
    var j :| j in tasks - {id} && Awaits((tasks - {id})[j], c);
    assert Awaits(tasks[j], c);
  }

  lemma ChildGoneStaysSole(s: Sup, c: nat, cfg: Config)
    requires cfg.Valid() && Sole(s) && c < |s.children| && (s.child == Some(c) ==> OnlyAlive(s.children, c))
    ensures Sole(OnChildGone(s, c, cfg))
  {
    hide BackoffMs;
  }

  lemma TrackedIsOnlyAlive(s: Sup, cfg: Config)
    requires Inv(s, cfg) && Sole(s) && s.child.Some?
    ensures s.child.value < |s.children| && OnlyAlive(s.children, s.child.value)
  {
    hide TasksInv, BudgetInv;
    assert ChildSound(s.children[s.child.value], true, s.generation, s.stopping);
  }

  lemma StepStaysSole(s: Sup, e: Event, cfg: Config)
    requires cfg.Valid() && Inv(s, cfg) && Accounted(s) && Sole(s) && NoneUnanswered(s) && PatientAt(s, e)
    ensures Sole(Step(s, e, cfg))
  {
    hide CallStart, CallStop, OnChildGone, ResumeTask, Inv, Accounted, BeingTerminated;
    InvNames(s, cfg);
    if s.child.Some? { TrackedIsOnlyAlive(s, cfg); }
    match e {
      case StartCall(project) => CallStartStaysSole(s, project, cfg);
      case StopCall => CallStopStaysSole(s, None, cfg);
      case RestartCall(project) => CallStopStaysSole(s, Some(project), cfg);
      case ChildExit(c) =>
        if c < |s.children| && !s.children[c].exited {
          ChildGoneStaysSole(s.Mark(c, s.children[c].(exited := true)), c, cfg);
        }
      case ChildError(c) => if c < |s.children| && !s.children[c].gone { ChildGoneStaysSole(s, c, cfg); }
      case Resume(id, ok) =>
        if id in s.tasks {
          var task := s.tasks[id];
          if task.IsStop() { ResumeStopStaysSole(s, id, ok, cfg); }
          else if task.RestartBackingOff? { RespawnStaysSole(s, id, ok, cfg); }
          else if task.RestartWaiting? || task.RestartDiscarding? { ResumeRestartStaysSole(s, id, ok, cfg); }
          else if task.StartReaping? { ResumeReapingStaysSole(s, id, ok, cfg); }
          else { ResumeStartStaysSole(s, id, ok, cfg); }
        }
    }
  }

  lemma {:induction false} RunStaysSole(s: Sup, events: seq<Event>, cfg: Config)
    requires cfg.Valid() && Inv(s, cfg) && Accounted(s) && Sole(s) && Patient(s, events, cfg)
    ensures Sole(Run(s, events, cfg))
    decreases |events|
  {
    hide Inv, Step, Accounted, Sole, PatientAt, NoneUnanswered;
    if events != [] {
      InvNames(s, cfg);
      StepStaysSole(s, events[0], cfg);
      StepAccounts(s, events[0], cfg);
      StepKeepsInv(s, events[0], cfg);
      RunStaysSole(Step(s, events[0], cfg), events[1..], cfg);
    }
  }

  /**
   * A caller that begins no start while a live process is still being terminated never has two processes alive, as long
   * as each process exits within the two graces of its termination.
   */
  lemma PatientCallersHaveOneProcess(events: seq<Event>, cfg: Config)
    requires cfg.Valid() && Patient(INITIAL_SUP, events, cfg)
    ensures !TwoAlive(Run(INITIAL_SUP, events, cfg))
  {
    hide Inv, Patient, Run;
    InvInitial(cfg);
    RunStaysSole(INITIAL_SUP, events, cfg);
  }

  /** An awaited stop is not enough: the superseded start may still be reaping the process it replaces. */
  lemma StartOverlapsSupersededStart(cfg: Config)
    requires cfg.Valid()
    ensures var stopped := [StartCall("p"), Resume(0, true), Resume(0, true), Resume(0, true), StartCall("q"),
                            StopCall, Resume(2, true)];
            && (forall id <- Run(INITIAL_SUP, stopped, cfg).tasks :: id != 2)
            && TwoAlive(Run(INITIAL_SUP, stopped + [StartCall("r")], cfg))
  {
    hide RespawnsSince, Config.Polls, Inv, BeingTerminated, Run, Named;
    var healthy := [StartCall("p"), Resume(0, true), Resume(0, true), Resume(0, true)];
    var replaced, begun := healthy + [StartCall("q")], healthy + [StartCall("q")] + [StopCall];
    var stopped := begun + [Resume(2, true)];
    assert stopped == [StartCall("p"), Resume(0, true), Resume(0, true), Resume(0, true), StartCall("q"),
                       StopCall, Resume(2, true)];
    InvInitial(cfg);
    StateAfterReplacement(cfg);
    RunThenStep(INITIAL_SUP, replaced, StopCall, cfg);
    RunThenStep(INITIAL_SUP, begun, Resume(2, true), cfg);
    RunThenStep(INITIAL_SUP, stopped, StartCall("r"), cfg);
    var s := Run(INITIAL_SUP, stopped + [StartCall("r")], cfg);
    assert |s.children| == 2 && !s.children[0].gone && !s.children[1].gone;
  }

  lemma StateAfterReplacement(cfg: Config)
    requires cfg.Valid()
    ensures var healthy := [StartCall("p"), Resume(0, true), Resume(0, true), Resume(0, true)];
            var s := Run(INITIAL_SUP, healthy + [StartCall("q")], cfg);
            && s.child.None? && s.nextTask == 2 && |s.children| == 1 && !s.children[0].gone
            && s.tasks.Keys <= {0, 1} && s.status == Healthy && !s.stopping
  {
    hide RespawnsSince, Config.Polls, Inv;
    var healthy := [StartCall("p"), Resume(0, true), Resume(0, true), Resume(0, true)];
    InvInitial(cfg);
    RunOf4(INITIAL_SUP, healthy[0], healthy[1], healthy[2], healthy[3], cfg);
    RunThenStep(INITIAL_SUP, healthy, StartCall("q"), cfg);
  }
}
