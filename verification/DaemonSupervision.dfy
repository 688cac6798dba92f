/**
 * The supervisor's coroutines as a step protocol. Each coroutine is a task whose program counter is the await it is
 * suspended at; calls, child events and resumptions may come in any order. What runs between two awaits is one step.
 */
module DaemonSupervision {
  import opened Basics

  // ---------------------------------------------------------------- configuration

  datatype Config = Config(maxRetries: nat, healthTimeoutMs: nat, healthIntervalMs: nat, backoffBaseMs: nat,
                           backoffMaxMs: nat)
  {
    predicate Valid() { healthIntervalMs > 0 }

    /** `max(1, ceil(timeout / interval))` polls. */
    function Polls(): (n: nat)
      requires Valid()
      ensures n >= 1
      ensures n > 1 ==> (n - 1) * healthIntervalMs < healthTimeoutMs
      ensures n * healthIntervalMs >= healthTimeoutMs
    {
      Max(1, (healthTimeoutMs + healthIntervalMs - 1) / healthIntervalMs)
    }
  }

  function Pow2(n: nat): nat { if n == 0 then 1 else 2 * Pow2(n - 1) }

  function BackoffMs(cfg: Config, attempt: nat): nat {
    Min(cfg.backoffMaxMs, cfg.backoffBaseMs * Pow2(attempt))
  }

  function TotalBackoff(cfg: Config, attempts: nat): nat {
    if attempts == 0 then 0 else TotalBackoff(cfg, attempts - 1) + BackoffMs(cfg, attempts - 1)
  }

  // ---------------------------------------------------------------- state

  datatype Status = Stopped | Starting | Healthy | Restarting | Failed

  /**
   * A spawned process: `gone` once its loss was seen, `exited` once its exit event fired, `unanswered` once the second
   * grace of its termination ran out without an exit.
   */
  datatype Child = Child(generation: nat, gone: bool, exited: bool, terminating: bool, killed: bool, unanswered: bool)

  /**
   * Where a health wait is: awaiting a probe with `left` more attempts allowed after it, awaiting the pause before the
   * probe that has `left` more after it, or returned.
   */
  datatype Wait = Probing(left: nat) | Pausing(left: nat) | Decided(healthy: bool)

  /** Where a termination is: in the first grace, in the grace after SIGKILL, or returned. */
  datatype Termination = Grace | LastGrace | Reaped

  datatype Task =
    | StartReaping(generation: nat, project: string, child: nat, t: Termination)
    | StartWaiting(generation: nat, child: nat, w: Wait)
    | StartDiscarding(generation: nat, child: nat, t: Termination)
    | StartSettled(generation: nat)
    | RestartBackingOff(generation: nat, waited: nat)
    | RestartWaiting(generation: nat, child: nat, w: Wait, waited: nat)
    | RestartDiscarding(generation: nat, child: nat, t: Termination, waited: nat)
    | StopTerminating(child: nat, t: Termination, thenStart: Option<string>)
    | StopYielded(thenStart: Option<string>)
  {
    predicate IsStart() { StartReaping? || StartWaiting? || StartDiscarding? || StartSettled? }

    predicate IsRestart() { RestartBackingOff? || RestartWaiting? || RestartDiscarding? }

    predicate IsStop() { StopTerminating? || StopYielded? }
  }

  /** What an observer of the supervisor would note down; no decision reads it. */
  datatype Note =
    | Spawned(generation: nat, current: nat, stopping: bool, tracked: Option<nat>, respawn: bool)
    | BecameHealthy(generation: nat, lost: bool)   // whether the process was lost before

  datatype Sup = Sup(generation: nat, child: Option<nat>, stopping: bool, retries: nat, status: Status,
                     starting: Option<nat>, project: Option<string>, children: seq<Child>,
                     tasks: map<nat, Task>, nextTask: nat, notes: seq<Note>)
  {
    /** The check each coroutine makes after an await. */
    predicate Current(g: nat) { g == generation && !stopping }

    function With(id: nat, task: Task): Sup { this.(tasks := tasks[id := task]) }

    function Without(id: nat): Sup { this.(tasks := tasks - {id}) }

    function Mark(c: nat, child: Child): Sup
      requires c < |children|
    {
      this.(children := children[c := child])
    }
  }

  const INITIAL_SUP := Sup(0, None, false, 0, Stopped, None, None, [], map[], 0, [])

  // ---------------------------------------------------------------- pieces of a step

  function SpawnChild(s: Sup, g: nat, respawn: bool): Sup {
    s.(children := s.children + [Child(g, false, false, false, false, false)], child := Some(|s.children|),
       notes := s.notes + [Spawned(g, s.generation, s.stopping, s.child, respawn)])
  }

  /** The top of the polling loop. */
  function WaitAt(s: Sup, g: nat, c: nat, left: nat): Wait {
    if !s.Current(g) || s.child != Some(c) then Decided(false) else Probing(left)
  }

  function ResumeWait(s: Sup, g: nat, c: nat, w: Wait, ok: bool): Wait {
    match w
    case Probing(left) =>
      if !s.Current(g) then Decided(false)
      else if ok then Decided(true)
      else if left > 0 then Pausing(left - 1)
      else Decided(false)
    case Pausing(left) => WaitAt(s, g, c, left)
    case Decided(healthy) => w
  }

  function BeginTerminate(s: Sup, c: nat): (Sup, Termination)
    requires c < |s.children|
  {
    if s.children[c].gone then (s, Reaped) else (s.Mark(c, s.children[c].(terminating := true)), Grace)
  }

  function ResumeTerminate(s: Sup, c: nat, t: Termination): (Sup, Termination)
    requires c < |s.children|
  {
    if t == Reaped || s.children[c].exited then (s, Reaped)
    else
      var late := s.children[c].unanswered || t == LastGrace;
      (s.Mark(c, s.children[c].(killed := true, unanswered := late)), if t == Grace then LastGrace else Reaped)
  }

  function Forget(s: Sup, c: nat): Sup { s.(child := if s.child == Some(c) then None else s.child) }

  function BecomeHealthy(s: Sup, g: nat, c: nat): Sup
    requires c < |s.children|
  {
    s.(retries := 0, status := Healthy, notes := s.notes + [BecameHealthy(g, s.children[c].gone)])
  }

  /** `doStart` up to its first await, on the state that `startAfterTeardown` has prepared. */
  function DoStart(s: Sup, id: nat, g: nat, project: string, cfg: Config): Sup
    requires cfg.Valid()
  {
    var armed := s.(stopping := false, project := Some(project), retries := 0, status := Starting);
    var c := |s.children|;
    var spawned := SpawnChild(armed, g, false);
    spawned.With(id, StartWaiting(g, c, WaitAt(spawned, g, c, cfg.Polls() - 1)))
  }

  /** The head of the restart loop, up to its backoff. */
  function LoopHead(s: Sup, id: nat, g: nat, waited: nat, cfg: Config): Sup {
    if !s.Current(g) then s.Without(id)
    else if s.retries >= cfg.maxRetries then s.(status := Failed).Without(id)
    else s.(retries := s.retries + 1, status := Restarting)
         .With(id, RestartBackingOff(g, waited + BackoffMs(cfg, s.retries)))
  }

  // ---------------------------------------------------------------- calls

  function CallStart(s: Sup, project: string, cfg: Config): Sup
    requires cfg.Valid()
    requires s.child.Some? ==> s.child.value < |s.children|
  {
    if s.starting.Some? || (s.status == Healthy && s.project == Some(project) && s.child.Some?) then s
    else
      var id, g := s.nextTask, s.generation + 1;
      var begun := s.(generation := g, nextTask := id + 1, starting := Some(id), child := None);
      if s.child.None? then DoStart(begun, id, g, project, cfg)
      else
        var (s', t) := BeginTerminate(begun, s.child.value);
        s'.With(id, StartReaping(g, project, s.child.value, t))
  }

  function CallStop(s: Sup, thenStart: Option<string>): Sup
    requires s.child.Some? ==> s.child.value < |s.children|
  {
    var id := s.nextTask;
    var begun := s.(stopping := true, generation := s.generation + 1, starting := None, child := None,
                    nextTask := id + 1);
    if s.child.None? then begun.(status := Stopped).With(id, StopYielded(thenStart))
    else
      var (s', t) := BeginTerminate(begun, s.child.value);
      s'.With(id, StopTerminating(s.child.value, t, thenStart))
  }

  // ---------------------------------------------------------------- child events

  function OnChildGone(s: Sup, c: nat, cfg: Config): Sup
    requires c < |s.children|
  {
    var g := s.children[c].generation;
    var seen := s.Mark(c, s.children[c].(gone := true));
    if !s.Current(g) || s.child != Some(c) then seen
    else if s.status != Healthy then seen.(child := None)
    else LoopHead(seen.(child := None, nextTask := s.nextTask + 1), s.nextTask, g, 0, cfg)
  }

  // ---------------------------------------------------------------- resumptions

  /** All children that the state and its tasks name exist. */
  predicate Named(s: Sup) {
    && (s.child.Some? ==> s.child.value < |s.children|)
    && (forall id <- s.tasks :: NamesChild(s.tasks[id]) ==> s.tasks[id].child < |s.children|)
  }

  predicate NamesChild(task: Task) {
    !task.StartSettled? && !task.RestartBackingOff? && !task.StopYielded?
  }

  /** Resume a task; `ok` is the answer of the probe it may be awaiting. */
  function ResumeTask(s: Sup, id: nat, ok: bool, cfg: Config): Sup
    requires id in s.tasks && Named(s) && cfg.Valid()
  {
    match s.tasks[id]
    case StartReaping(g, project, c, t) =>
      if t == Reaped then
        if g != s.generation then s.With(id, StartSettled(g)) else DoStart(s, id, g, project, cfg)
      else
        var (s', t') := ResumeTerminate(s, c, t);
        s'.With(id, StartReaping(g, project, c, t'))
    case StartWaiting(g, c, w) =>
      if !w.Decided? then s.With(id, StartWaiting(g, c, ResumeWait(s, g, c, w, ok)))
      else if !s.Current(g) then s.With(id, StartSettled(g))
      else if w.healthy then BecomeHealthy(s, g, c).With(id, StartSettled(g))
      else
        var (s', t) := BeginTerminate(Forget(s, c), c);
        s'.With(id, StartDiscarding(g, c, t))
    case StartDiscarding(g, c, t) =>
      if t == Reaped then
        if !s.Current(g) then s.With(id, StartSettled(g)) else s.(status := Failed).With(id, StartSettled(g))
      else
        var (s', t') := ResumeTerminate(s, c, t);
        s'.With(id, StartDiscarding(g, c, t'))
    case StartSettled(g) =>
      s.(starting := if s.starting == Some(id) then None else s.starting).Without(id)
    case RestartBackingOff(g, waited) =>
      if !s.Current(g) then s.Without(id)
      else
        var c := |s.children|;
        var spawned := SpawnChild(s, g, true);
        spawned.With(id, RestartWaiting(g, c, WaitAt(spawned, g, c, cfg.Polls() - 1), waited))
    case RestartWaiting(g, c, w, waited) =>
      if !w.Decided? then s.With(id, RestartWaiting(g, c, ResumeWait(s, g, c, w, ok), waited))
      else if !s.Current(g) then s.Without(id)
      else if w.healthy then BecomeHealthy(s, g, c).Without(id)
      else
        var (s', t) := BeginTerminate(Forget(s, c), c);
        s'.With(id, RestartDiscarding(g, c, t, waited))
    case RestartDiscarding(g, c, t, waited) =>
      if t == Reaped then LoopHead(s, id, g, waited, cfg)
      else
        var (s', t') := ResumeTerminate(s, c, t);
        s'.With(id, RestartDiscarding(g, c, t', waited))
    case StopTerminating(c, t, thenStart) =>
      if t == Reaped then s.(status := Stopped).With(id, StopYielded(thenStart))
      else
        var (s', t') := ResumeTerminate(s, c, t);
        s'.With(id, StopTerminating(c, t', thenStart))
    case StopYielded(thenStart) =>
      if thenStart.None? then s.Without(id) else CallStart(s.Without(id), thenStart.value, cfg)
  }

  // ---------------------------------------------------------------- the protocol

  datatype Event =
    | StartCall(project: string) | StopCall | RestartCall(project: string)
    | ChildExit(c: nat) | ChildError(c: nat)
    | Resume(id: nat, ok: bool)

  /** Events that cannot occur in a state (an unknown task or process, a second exit) change nothing. */
  function Step(s: Sup, e: Event, cfg: Config): Sup
    requires Named(s) && cfg.Valid()
  {
    match e
    case StartCall(project) => CallStart(s, project, cfg)
    case StopCall => CallStop(s, None)
    case RestartCall(project) => CallStop(s, Some(project))
    case ChildExit(c) =>
      if c >= |s.children| || s.children[c].exited then s
      else
        var fired := s.Mark(c, s.children[c].(exited := true));
        if s.children[c].gone then fired else OnChildGone(fired, c, cfg)
    case ChildError(c) => if c >= |s.children| || s.children[c].gone then s else OnChildGone(s, c, cfg)
    case Resume(id, ok) => if id in s.tasks then ResumeTask(s, id, ok, cfg) else s
  }

  // ---------------------------------------------------------------- the invariant

  predicate IsEpisode(task: Task) {
    !task.StartSettled? && !task.StopTerminating? && !task.StopYielded?
  }

  /** The task is an unfinished start or restart of the current generation. */
  predicate IsActive(task: Task, generation: nat) {
    IsEpisode(task) && task.generation == generation
  }

  ghost predicate OneActive(tasks: map<nat, Task>, generation: nat) {
    forall i <- tasks, j <- tasks | IsActive(tasks[i], generation) && IsActive(tasks[j], generation) :: i == j
  }

  /** Only the named task may be active. */
  ghost predicate OnlyActive(tasks: map<nat, Task>, generation: nat, id: nat) {
    forall i <- tasks | IsActive(tasks[i], generation) :: i == id
  }

  predicate TerminationSound(child: Child, t: Termination) {
    && (child.terminating || child.gone)
    && (t == LastGrace ==> child.killed)
    && (t == Reaped ==> child.unanswered || child.gone)
  }

  predicate Terminates(task: Task) {
    task.StartReaping? || task.StartDiscarding? || task.RestartDiscarding? || task.StopTerminating?
  }

  /** What holds of every suspended task, current or not. */
  predicate TaskSound(task: Task, children: seq<Child>, generation: nat) {
    && (NamesChild(task) ==> task.child < |children|)
    && (IsEpisode(task) || task.StartSettled? ==> task.generation <= generation)
    && (Terminates(task) ==> TerminationSound(children[task.child], task.t))
  }

  /** What an active task knows about the shared fields. */
  predicate ActiveSound(task: Task, children: seq<Child>, child: Option<nat>, stopping: bool, status: Status,
                        retries: nat, cfg: Config) {
    && (task.StartReaping? || task.StartDiscarding? || task.RestartBackingOff? || task.RestartDiscarding? ==>
          child.None?)
    && (!task.StartReaping? ==> !stopping && status != Healthy)
    && (task.StartWaiting? || task.RestartWaiting? ==>
          && (child.Some? ==> child == Some(task.child))
          && (child.None? ==> task.child < |children| && children[task.child].gone))
    && (task.IsRestart() ==> retries >= 1 && task.waited == TotalBackoff(cfg, retries))
  }

  /** A process is the tracked one, or is known to be gone, or is being terminated. */
  predicate ChildSound(child: Child, tracked: bool, generation: nat, stopping: bool) {
    && child.generation <= generation
    && (child.exited ==> child.gone)
    && (tracked || child.gone || child.terminating)
    && (tracked ==> child.generation == generation && !child.gone && !stopping)
  }

  predicate NoteSound(n: Note) {
    n.Spawned? ==> n.generation == n.current && !n.stopping && n.tracked.None?
  }

  /** Respawns noted since the last entry to healthy or the last fresh start. */
  function RespawnsSince(notes: seq<Note>): nat {
    if notes == [] then 0
    else
      match notes[|notes| - 1]
      case BecameHealthy(_, _) => 0
      case Spawned(_, _, _, _, respawn) => if respawn then RespawnsSince(notes[..|notes| - 1]) + 1 else 0
  }

  ghost predicate ChildrenInv(children: seq<Child>, child: Option<nat>, generation: nat, stopping: bool) {
    && (child.Some? ==> child.value < |children|)
    && forall c: nat | c < |children| :: ChildSound(children[c], child == Some(c), generation, stopping)
  }

  ghost predicate TasksInv(s: Sup, cfg: Config) {
    && OneActive(s.tasks, s.generation)
    && (forall id <- s.tasks :: id < s.nextTask && TaskSound(s.tasks[id], s.children, s.generation))
    && (forall id <- s.tasks | IsActive(s.tasks[id], s.generation) ::
          ActiveSound(s.tasks[id], s.children, s.child, s.stopping, s.status, s.retries, cfg))
  }

  ghost predicate BudgetInv(s: Sup, cfg: Config) {
    && RespawnsSince(s.notes) <= s.retries <= cfg.maxRetries
    && (s.status == Healthy ==> s.retries == 0)
    && (forall id <- s.tasks | IsActive(s.tasks[id], s.generation) && s.tasks[id].RestartBackingOff? ::
          RespawnsSince(s.notes) < s.retries)
  }

  ghost predicate Inv(s: Sup, cfg: Config) {
    && ChildrenInv(s.children, s.child, s.generation, s.stopping)
    && TasksInv(s, cfg)
    && BudgetInv(s, cfg)
    && forall n <- s.notes :: NoteSound(n)
  }

  lemma InvNames(s: Sup, cfg: Config)
    requires Inv(s, cfg)
    ensures Named(s)
  {
  }

  lemma InvInitial(cfg: Config)
    ensures Inv(INITIAL_SUP, cfg)
  {
  }

  lemma RespawnsSnoc(notes: seq<Note>, n: Note)
    ensures RespawnsSince(notes + [n])
            == if n.Spawned? && n.respawn then RespawnsSince(notes) + 1 else 0
  {
    assert (notes + [n])[..|notes|] == notes;
  }

  lemma DoStartKeepsInv(s: Sup, id: nat, g: nat, project: string, cfg: Config)
    requires cfg.Valid() && Inv(s, cfg) && s.child.None? && id < s.nextTask && g == s.generation
    requires OnlyActive(s.tasks, g, id)
    ensures Inv(DoStart(s, id, g, project, cfg), cfg)
  {
    hide RespawnsSince, TotalBackoff;
    RespawnsSnoc(s.notes, Spawned(g, s.generation, false, s.child, false));
  }

  lemma CallStartKeepsInv(s: Sup, project: string, cfg: Config)
    requires cfg.Valid() && Inv(s, cfg)
    ensures Inv(CallStart(s, project, cfg), cfg)
  {
    hide RespawnsSince, TotalBackoff, DoStart;
    var id, g := s.nextTask, s.generation + 1;
    var begun := s.(generation := g, nextTask := id + 1, starting := Some(id), child := None);
    if s.child.None? {
      assert Inv(begun, cfg);
      DoStartKeepsInv(begun, id, g, project, cfg);
    }
  }

  lemma CallStopKeepsInv(s: Sup, thenStart: Option<string>, cfg: Config)
    requires cfg.Valid() && Inv(s, cfg)
    ensures Inv(CallStop(s, thenStart), cfg)
  {
    hide RespawnsSince, TotalBackoff;
  }

  lemma LoopHeadKeepsInv(s: Sup, id: nat, g: nat, waited: nat, cfg: Config)
    requires cfg.Valid() && Inv(s, cfg) && id < s.nextTask && s.child.None? && g <= s.generation
    requires OnlyActive(s.tasks, s.generation, id)
    requires s.Current(g) ==> waited == TotalBackoff(cfg, s.retries)
    ensures Inv(LoopHead(s, id, g, waited, cfg), cfg)
  {
    hide RespawnsSince, BackoffMs;
  }

  /** The loss of a process is noted, and the process forgotten if it was tracked. */
  lemma LossKeepsInv(s: Sup, c: nat, cfg: Config)
    requires Inv(s, cfg) && c < |s.children|
    ensures var seen := s.Mark(c, s.children[c].(gone := true));
            Inv(if s.child == Some(c) then seen.(child := None) else seen, cfg)
  {
    hide RespawnsSince, TotalBackoff, NoteSound;
  }

  lemma ChildGoneKeepsInv(s: Sup, c: nat, cfg: Config)
    requires cfg.Valid() && Inv(s, cfg) && c < |s.children|
    ensures Inv(OnChildGone(s, c, cfg), cfg)
  {
    hide RespawnsSince, BackoffMs, LoopHead;
    var g := s.children[c].generation;
    LossKeepsInv(s, c, cfg);
    assert s.child == Some(c) ==> ChildSound(s.children[c], true, s.generation, s.stopping);
    if s.Current(g) && s.child == Some(c) && s.status == Healthy {
      var seen := s.Mark(c, s.children[c].(gone := true));
      LoopHeadKeepsInv(seen.(child := None, nextTask := s.nextTask + 1), s.nextTask, g, 0, cfg);
    }
  }

  // ---------------------------------------------------------------- every step keeps the invariant

  lemma WithKeepsInv(s: Sup, id: nat, task: Task, cfg: Config)
    requires Inv(s, cfg) && id < s.nextTask && TaskSound(task, s.children, s.generation)
    requires IsActive(task, s.generation) ==>
               && OnlyActive(s.tasks, s.generation, id)
               && ActiveSound(task, s.children, s.child, s.stopping, s.status, s.retries, cfg)
               && !task.RestartBackingOff?
    ensures Inv(s.With(id, task), cfg)
  {
    hide RespawnsSince, TotalBackoff;
  }

  lemma WithoutKeepsInv(s: Sup, id: nat, cfg: Config)
    requires Inv(s, cfg)
    ensures Inv(s.Without(id), cfg)
  {
    hide RespawnsSince, TotalBackoff;
  }

  /** Marking a process further along never breaks anything, unless it declares the tracked one gone. */
  lemma MarkKeepsInv(s: Sup, c: nat, child: Child, cfg: Config)
    requires Inv(s, cfg) && c < |s.children| && child.generation == s.children[c].generation
    requires (s.children[c].terminating ==> child.terminating) && (s.children[c].killed ==> child.killed)
    requires s.children[c].unanswered ==> child.unanswered
    requires child.gone == s.children[c].gone && (child.exited ==> child.gone)
    ensures Inv(s.Mark(c, child), cfg)
  {
    hide RespawnsSince, TotalBackoff;
  }

  lemma ActiveIsOnly(s: Sup, id: nat, cfg: Config)
    requires Inv(s, cfg) && id in s.tasks && IsActive(s.tasks[id], s.generation)
    ensures OnlyActive(s.tasks, s.generation, id)
  {
  }

  /** A step inside `terminateChild`, whichever coroutine awaits it. */
  lemma TerminateKeepsInv(s: Sup, id: nat, task: Task, cfg: Config)
    requires Inv(s, cfg) && id in s.tasks && Terminates(s.tasks[id]) && s.tasks[id].t != Reaped
    requires var (s', t') := ResumeTerminate(s, s.tasks[id].child, s.tasks[id].t);
             task == s.tasks[id].(t := t')
    ensures var (s', t') := ResumeTerminate(s, s.tasks[id].child, s.tasks[id].t);
            Inv(s'.With(id, task), cfg)
  {
    hide RespawnsSince, TotalBackoff;
    var c := s.tasks[id].child;
    var (s', t') := ResumeTerminate(s, c, s.tasks[id].t);
    if !s.children[c].exited { MarkKeepsInv(s, c, s'.children[c], cfg); }
    if IsActive(s.tasks[id], s.generation) { ActiveIsOnly(s, id, cfg); }
    WithKeepsInv(s', id, task, cfg);
  }

  /** Giving up on an unhealthy process: forget it if it is tracked, begin to terminate it, and await that. */
  lemma DiscardKeepsInv(s: Sup, id: nat, task: Task, cfg: Config)
    requires Inv(s, cfg) && id in s.tasks && IsActive(s.tasks[id], s.generation) && s.Current(s.generation)
    requires (s.tasks[id].StartWaiting? && task.StartDiscarding?)
          || (s.tasks[id].RestartWaiting? && task.RestartDiscarding? && task.waited == s.tasks[id].waited)
    requires task.generation == s.generation && task.child == s.tasks[id].child
    requires task.t == BeginTerminate(Forget(s, task.child), task.child).1
    ensures Inv(BeginTerminate(Forget(s, task.child), task.child).0.With(id, task), cfg)
  {
    hide RespawnsSince, TotalBackoff;
    ActiveIsOnly(s, id, cfg);
  }

  lemma BecomeHealthyKeepsInv(s: Sup, id: nat, g: nat, c: nat, cfg: Config)
    requires Inv(s, cfg) && id in s.tasks && OnlyActive(s.tasks, s.generation, id) && c < |s.children|
    ensures Inv(BecomeHealthy(s, g, c).Without(id), cfg)
    ensures g <= s.generation ==> Inv(BecomeHealthy(s, g, c).With(id, StartSettled(g)), cfg)
  {
    hide RespawnsSince, TotalBackoff;
    RespawnsSnoc(s.notes, BecameHealthy(g, s.children[c].gone));
  }

  lemma WaitKeepsActive(s: Sup, id: nat, task: Task, cfg: Config)
    requires cfg.Valid() && Inv(s, cfg) && id in s.tasks
    requires (s.tasks[id].StartWaiting? && task.StartWaiting?) || (s.tasks[id].RestartWaiting? && task.RestartWaiting?)
    requires task == s.tasks[id].(w := task.w)
    ensures Inv(s.With(id, task), cfg)
  {
    hide RespawnsSince, TotalBackoff;
    if IsActive(task, s.generation) { ActiveIsOnly(s, id, cfg); }
    WithKeepsInv(s, id, task, cfg);
  }

  lemma ResumeStartKeepsInv(s: Sup, id: nat, ok: bool, cfg: Config)
    requires cfg.Valid() && Inv(s, cfg) && id in s.tasks
    requires s.tasks[id].IsStart()
    ensures Inv(ResumeTask(s, id, ok, cfg), cfg)
  {
    hide RespawnsSince, TotalBackoff, DoStart, BeginTerminate, ResumeTerminate, ResumeWait;
    var active := IsActive(s.tasks[id], s.generation);
    if active { ActiveIsOnly(s, id, cfg); }
    match s.tasks[id] {
      case StartReaping(g, project, c, t) =>
        if t != Reaped {
          var (s', t') := ResumeTerminate(s, c, t);
          TerminateKeepsInv(s, id, StartReaping(g, project, c, t'), cfg);
        } else if active {
          DoStartKeepsInv(s, id, g, project, cfg);
        } else {
          WithKeepsInv(s, id, StartSettled(g), cfg);
        }
      case StartWaiting(g, c, w) =>
        if !w.Decided? {
          WaitKeepsActive(s, id, StartWaiting(g, c, ResumeWait(s, g, c, w, ok)), cfg);
        } else if !s.Current(g) {
          WithKeepsInv(s, id, StartSettled(g), cfg);
        } else if w.healthy {
          BecomeHealthyKeepsInv(s, id, g, c, cfg);
        } else {
          DiscardKeepsInv(s, id, StartDiscarding(g, c, BeginTerminate(Forget(s, c), c).1), cfg);
        }
      case StartDiscarding(g, c, t) =>
        if t != Reaped {
          var (s', t') := ResumeTerminate(s, c, t);
          TerminateKeepsInv(s, id, StartDiscarding(g, c, t'), cfg);
        } else if s.Current(g) {
          StatusKeepsInv(s, Failed, cfg);
          WithKeepsInv(s.(status := Failed), id, StartSettled(g), cfg);
        } else {
          WithKeepsInv(s, id, StartSettled(g), cfg);
        }
      case StartSettled(g) =>
        WithoutKeepsInv(s.(starting := if s.starting == Some(id) then None else s.starting), id, cfg);
    }
  }

  lemma StatusKeepsInv(s: Sup, status: Status, cfg: Config)
    requires Inv(s, cfg) && status != Healthy
    ensures Inv(s.(status := status), cfg)
  {
    hide RespawnsSince, TotalBackoff;
  }

  /** The respawn of an active restart: one more process, one more respawn, still within the retries. */
  lemma RespawnKeepsInv(s: Sup, id: nat, w: Wait, cfg: Config)
    requires cfg.Valid() && Inv(s, cfg) && id in s.tasks && s.tasks[id].RestartBackingOff?
    requires s.Current(s.tasks[id].generation)
    ensures var g := s.tasks[id].generation;
            var c, spawned := |s.children|, SpawnChild(s, g, true);
            Inv(spawned.With(id, RestartWaiting(g, c, w, s.tasks[id].waited)), cfg)
  {
    hide RespawnsSince, TotalBackoff;
    var g := s.tasks[id].generation;
    ActiveIsOnly(s, id, cfg);
    RespawnsSnoc(s.notes, Spawned(g, s.generation, s.stopping, s.child, true));
  }

  lemma ResumeRestartKeepsInv(s: Sup, id: nat, ok: bool, cfg: Config)
    requires cfg.Valid() && Inv(s, cfg) && id in s.tasks
    requires s.tasks[id].IsRestart()
    ensures Inv(ResumeTask(s, id, ok, cfg), cfg)
  {
    hide RespawnsSince, TotalBackoff, BeginTerminate, ResumeTerminate, ResumeWait, LoopHead, SpawnChild, WaitAt;
    var active := IsActive(s.tasks[id], s.generation);
    if active { ActiveIsOnly(s, id, cfg); }
    WithoutKeepsInv(s, id, cfg);
    match s.tasks[id] {
      case RestartBackingOff(g, waited) =>
        if s.Current(g) {
          RespawnKeepsInv(s, id, WaitAt(SpawnChild(s, g, true), g, |s.children|, cfg.Polls() - 1), cfg);
        }
      case RestartWaiting(g, c, w, waited) =>
        if !w.Decided? {
          WaitKeepsActive(s, id, RestartWaiting(g, c, ResumeWait(s, g, c, w, ok), waited), cfg);
        } else if s.Current(g) {
          if w.healthy {
            BecomeHealthyKeepsInv(s, id, g, c, cfg);
          } else {
            DiscardKeepsInv(s, id, RestartDiscarding(g, c, BeginTerminate(Forget(s, c), c).1, waited), cfg);
          }
        }
      case RestartDiscarding(g, c, t, waited) =>
        if t != Reaped {
          var (s', t') := ResumeTerminate(s, c, t);
          TerminateKeepsInv(s, id, RestartDiscarding(g, c, t', waited), cfg);
        } else if active {
          LoopHeadKeepsInv(s, id, g, waited, cfg);
        } else {
          StaleLoopHead(s, id, g, waited, cfg);
        }
    }
  }

  lemma StaleLoopHead(s: Sup, id: nat, g: nat, waited: nat, cfg: Config)
    requires g != s.generation
    ensures LoopHead(s, id, g, waited, cfg) == s.Without(id)
  {
  }

  lemma ResumeStopKeepsInv(s: Sup, id: nat, ok: bool, cfg: Config)
    requires cfg.Valid() && Inv(s, cfg) && id in s.tasks && s.tasks[id].IsStop()
    ensures Inv(ResumeTask(s, id, ok, cfg), cfg)
  {
    hide RespawnsSince, TotalBackoff, ResumeTerminate, CallStart;
    match s.tasks[id] {
      case StopTerminating(c, t, thenStart) =>
        if t != Reaped {
          var (s', t') := ResumeTerminate(s, c, t);
          TerminateKeepsInv(s, id, StopTerminating(c, t', thenStart), cfg);
        } else {
          StatusKeepsInv(s, Stopped, cfg);
          WithKeepsInv(s.(status := Stopped), id, StopYielded(thenStart), cfg);
        }
      case StopYielded(thenStart) =>
        WithoutKeepsInv(s, id, cfg);
        if thenStart.Some? { CallStartKeepsInv(s.Without(id), thenStart.value, cfg); }
    }
  }

  /** The exit flag and the loss are noted together. */
  lemma ExitKeepsInv(s: Sup, c: nat, cfg: Config)
    requires cfg.Valid() && Inv(s, cfg) && c < |s.children| && !s.children[c].exited
    ensures Inv(Step(s, ChildExit(c), cfg), cfg)
  {
    hide RespawnsSince, TotalBackoff, BackoffMs;
    var fired := s.Mark(c, s.children[c].(exited := true));
    if s.children[c].gone {
      MarkKeepsInv(s, c, s.children[c].(exited := true), cfg);
    } else {
      ChildGoneKeepsInv(s, c, cfg);
      var lost := OnChildGone(s, c, cfg);
      MarkKeepsInv(lost, c, lost.children[c].(exited := true), cfg);
      assert OnChildGone(fired, c, cfg).children == lost.Mark(c, lost.children[c].(exited := true)).children;
    }
  }

  lemma StepKeepsInv(s: Sup, e: Event, cfg: Config)
    requires cfg.Valid() && Inv(s, cfg)
    ensures Inv(Step(s, e, cfg), cfg)
  {
    hide CallStart, CallStop, OnChildGone, ResumeTask, Inv;
    InvNames(s, cfg);
    match e {
      case StartCall(project) => CallStartKeepsInv(s, project, cfg);
      case StopCall => CallStopKeepsInv(s, None, cfg);
      case RestartCall(project) => CallStopKeepsInv(s, Some(project), cfg);
      case ChildExit(c) => if c < |s.children| && !s.children[c].exited { ExitKeepsInv(s, c, cfg); }
      case ChildError(c) => if c < |s.children| && !s.children[c].gone { ChildGoneKeepsInv(s, c, cfg); }
      case Resume(id, ok) =>
        if id in s.tasks {
          var task := s.tasks[id];
          if task.IsStop() { ResumeStopKeepsInv(s, id, ok, cfg); }
          else if task.IsRestart() { ResumeRestartKeepsInv(s, id, ok, cfg); }
          else { ResumeStartKeepsInv(s, id, ok, cfg); }
        }
    }
  }

  // ---------------------------------------------------------------- whole runs

  /** Run events one after the other; an event that the state cannot take changes nothing. */
  function Run(s: Sup, events: seq<Event>, cfg: Config): Sup
    requires cfg.Valid()
    decreases |events|
  {
    if events == [] || !Named(s) then s else Run(Step(s, events[0], cfg), events[1..], cfg)
  }

  lemma {:induction false} RunKeepsInv(s: Sup, events: seq<Event>, cfg: Config)
    requires cfg.Valid() && Inv(s, cfg)
    ensures Inv(Run(s, events, cfg), cfg)
    decreases |events|
  {
    hide Inv, Step;
    if events != [] {
      InvNames(s, cfg);
      StepKeepsInv(s, events[0], cfg);
      RunKeepsInv(Step(s, events[0], cfg), events[1..], cfg);
    }
  }

  /**
   * In every interleaving of calls, child events and resumptions: each spawn is of the current generation, while not
   * stopping and with no process tracked; one start or restart at most is active; every process ever spawned is the
   * tracked one, or gone, or being terminated; and respawns between two entries to healthy stay within the budget.
   */
  lemma SupervisionIsSafe(events: seq<Event>, cfg: Config)
    requires cfg.Valid()
    ensures var s := Run(INITIAL_SUP, events, cfg);
            && (forall n <- s.notes | n.Spawned? :: n.generation == n.current && !n.stopping && n.tracked.None?)
            && OneActive(s.tasks, s.generation)
            && (forall c: nat | c < |s.children| ::
                  s.child == Some(c) || s.children[c].gone || s.children[c].terminating)
            && RespawnsSince(s.notes) <= cfg.maxRetries
  {
    hide RespawnsSince;
    InvInitial(cfg);
    RunKeepsInv(INITIAL_SUP, events, cfg);
    var s := Run(INITIAL_SUP, events, cfg);
    assert forall c: nat | c < |s.children| :: ChildSound(s.children[c], s.child == Some(c), s.generation, s.stopping);
  }

  /** Of all processes ever spawned, at most one is neither gone nor being terminated. */
  lemma AtMostOneUnattended(events: seq<Event>, cfg: Config, c: nat, d: nat)
    requires cfg.Valid()
    requires var s := Run(INITIAL_SUP, events, cfg);
             && c < |s.children| && d < |s.children|
             && !s.children[c].gone && !s.children[c].terminating && !s.children[d].gone && !s.children[d].terminating
    ensures c == d
  {
    SupervisionIsSafe(events, cfg);
  }

  // ---------------------------------------------------------------- after stop, nothing is spawned

  /** Nothing is tracked and no start or restart of the current generation is under way. */
  ghost predicate Quiet(s: Sup) {
    s.child.None? && forall id <- s.tasks :: !IsActive(s.tasks[id], s.generation)
  }

  /** The event is a call to start: directly, or by the second half of a restart call. */
  predicate Starts(s: Sup, e: Event) {
    || e.StartCall?
    || (e.Resume? && e.id in s.tasks && s.tasks[e.id].StopYielded? && s.tasks[e.id].thenStart.Some?)
  }

  lemma StopMakesQuiet(s: Sup, thenStart: Option<string>, cfg: Config)
    requires cfg.Valid() && Inv(s, cfg)
    ensures Quiet(CallStop(s, thenStart)) && |CallStop(s, thenStart).children| == |s.children|
  {
    hide RespawnsSince, TotalBackoff;
  }

  lemma QuietResume(s: Sup, id: nat, ok: bool, cfg: Config)
    requires cfg.Valid() && Inv(s, cfg) && Quiet(s) && id in s.tasks && !Starts(s, Resume(id, ok))
    ensures Quiet(ResumeTask(s, id, ok, cfg)) && |ResumeTask(s, id, ok, cfg).children| == |s.children|
  {
    hide RespawnsSince, TotalBackoff, BackoffMs, DoStart, CallStart, SpawnChild, ActiveSound, BudgetInv, ChildSound;
  }

  lemma QuietStep(s: Sup, e: Event, cfg: Config)
    requires cfg.Valid() && Inv(s, cfg) && Quiet(s) && !Starts(s, e)
    ensures Quiet(Step(s, e, cfg)) && |Step(s, e, cfg).children| == |s.children|
  {
    hide RespawnsSince, TotalBackoff, BackoffMs, CallStart, CallStop, ResumeTask, LoopHead;
    if e.StopCall? || e.RestartCall? {
      StopMakesQuiet(s, if e.StopCall? then None else Some(e.project), cfg);
    } else if e.Resume? && e.id in s.tasks {
      QuietResume(s, e.id, e.ok, cfg);
    }
  }

  ghost predicate NoneStarts(s: Sup, events: seq<Event>, cfg: Config)
    requires cfg.Valid()
    decreases |events|
  {
    events == [] || !Named(s) || (!Starts(s, events[0]) && NoneStarts(Step(s, events[0], cfg), events[1..], cfg))
  }

  lemma {:induction false} QuietRun(s: Sup, events: seq<Event>, cfg: Config)
    requires cfg.Valid() && Inv(s, cfg) && Quiet(s) && NoneStarts(s, events, cfg)
    ensures Quiet(Run(s, events, cfg)) && |Run(s, events, cfg).children| == |s.children|
    decreases |events|
  {
    hide Inv, Step, Quiet, Starts;
    if events != [] {
      InvNames(s, cfg);
      QuietStep(s, events[0], cfg);
      StepKeepsInv(s, events[0], cfg);
      QuietRun(Step(s, events[0], cfg), events[1..], cfg);
    }
  }

  lemma {:induction false} RunThenStep(s: Sup, events: seq<Event>, e: Event, cfg: Config)
    requires cfg.Valid() && Inv(s, cfg)
    ensures Named(Run(s, events, cfg)) && Run(s, events + [e], cfg) == Step(Run(s, events, cfg), e, cfg)
    decreases |events|
  {
    hide Inv, Step, Named;
    InvNames(s, cfg);
    if events == [] {
      assert [] + [e] == [e] && [e][1..] == [];
      StepKeepsInv(s, e, cfg);
      assert Run(Step(s, e, cfg), [], cfg) == Step(s, e, cfg);
    } else {
      StepKeepsInv(s, events[0], cfg);
      assert (events + [e])[1..] == events[1..] + [e];
      RunThenStep(Step(s, events[0], cfg), events[1..], e, cfg);
    }
  }

  /**
   * After a stop, however the pending coroutines, probes and exits interleave, no process is spawned before a start.
   */
  lemma NoSpawnAfterStop(before: seq<Event>, after: seq<Event>, cfg: Config)
    requires cfg.Valid() && NoneStarts(Run(INITIAL_SUP, before + [StopCall], cfg), after, cfg)
    ensures var later := Run(Run(INITIAL_SUP, before + [StopCall], cfg), after, cfg);
            |later.children| == |Run(INITIAL_SUP, before, cfg).children| && later.child.None?
  {
    hide Inv, CallStop;
    InvInitial(cfg);
    RunKeepsInv(INITIAL_SUP, before, cfg);
    RunThenStep(INITIAL_SUP, before, StopCall, cfg);
    var s := Run(INITIAL_SUP, before, cfg);
    StopMakesQuiet(s, None, cfg);
    CallStopKeepsInv(s, None, cfg);
    QuietRun(CallStop(s, None), after, cfg);
  }

  // ---------------------------------------------------------------- every episode ends

  function WaitRank(w: Wait): nat {
    match w
    case Probing(left) => 2 * left + 2
    case Pausing(left) => 2 * left + 3
    case Decided(_) => 1
  }

  function TerminationRank(t: Termination): nat {
    match t
    case Grace => 3
    case LastGrace => 2
    case Reaped => 1
  }

  /** Resumptions that one round of the restart loop can take. */
  function RoundRank(cfg: Config): nat
    requires cfg.Valid()
  {
    2 * cfg.Polls() + 4
  }

  /** An upper bound on how often a task can still be resumed. */
  function Rank(s: Sup, task: Task, cfg: Config): nat
    requires cfg.Valid()
  {
    var rounds := if IsActive(task, s.generation) then Max(0, cfg.maxRetries - s.retries) * RoundRank(cfg) else 0;
    match task
    case StartReaping(_, _, _, t) => TerminationRank(t) + 2 * cfg.Polls() + 4
    case StartWaiting(_, _, w) => WaitRank(w) + 4
    case StartDiscarding(_, _, t) => TerminationRank(t) + 1
    case StartSettled(_) => 1
    case RestartBackingOff(_, _) => RoundRank(cfg) + rounds
    case RestartWaiting(_, _, w, _) => WaitRank(w) + 3 + rounds
    case RestartDiscarding(_, _, t, _) => TerminationRank(t) + rounds
    case StopTerminating(_, t, _) => TerminationRank(t) + 1
    case StopYielded(_) => 1
  }

  lemma OneRoundLess(cfg: Config, retries: nat)
    requires cfg.Valid() && retries < cfg.maxRetries
    ensures (cfg.maxRetries - retries) * RoundRank(cfg)
            == (cfg.maxRetries - (retries + 1)) * RoundRank(cfg) + RoundRank(cfg)
  {
  }

  lemma RoundRankIs(cfg: Config)
    requires cfg.Valid()
    ensures RoundRank(cfg) == 2 * cfg.Polls() + 4
  {
  }

  lemma StartResumptionLowersRank(s: Sup, id: nat, ok: bool, cfg: Config)
    requires cfg.Valid() && Inv(s, cfg) && id in s.tasks
    requires s.tasks[id].IsStart()
    ensures var s' := ResumeTask(s, id, ok, cfg);
            id in s'.tasks ==> Rank(s', s'.tasks[id], cfg) < Rank(s, s.tasks[id], cfg)
  {
    hide RespawnsSince, TotalBackoff, RoundRank, BackoffMs, Inv, IsActive, Config.Polls;
  }

  lemma RestartResumptionLowersRank(s: Sup, id: nat, ok: bool, cfg: Config)
    requires cfg.Valid() && Inv(s, cfg) && id in s.tasks
    requires s.tasks[id].IsRestart()
    ensures var s' := ResumeTask(s, id, ok, cfg);
            id in s'.tasks ==> Rank(s', s'.tasks[id], cfg) < Rank(s, s.tasks[id], cfg)
  {
    hide RespawnsSince, TotalBackoff, RoundRank, BackoffMs, Inv, Config.Polls;
    if s.retries < cfg.maxRetries { OneRoundLess(cfg, s.retries); }
    RoundRankIs(cfg);
  }

  lemma StopResumptionLowersRank(s: Sup, id: nat, ok: bool, cfg: Config)
    requires cfg.Valid() && Inv(s, cfg) && id in s.tasks && s.tasks[id].IsStop()
    ensures var s' := ResumeTask(s, id, ok, cfg);
            id in s'.tasks ==> Rank(s', s'.tasks[id], cfg) < Rank(s, s.tasks[id], cfg)
  {
    hide RespawnsSince, TotalBackoff, RoundRank, BackoffMs, Config.Polls, DoStart;
    if s.tasks[id].StopYielded? && s.tasks[id].thenStart.Some? {
      CallAddsOnlyNew(s.Without(id), s.tasks[id].thenStart.value, cfg);
    }
  }

  /** A call to start touches no task but its own new one. */
  lemma CallAddsOnlyNew(s: Sup, project: string, cfg: Config)
    requires cfg.Valid() && Named(s)
    ensures forall i: nat | i != s.nextTask :: i in CallStart(s, project, cfg).tasks <==> i in s.tasks
    ensures forall i <- s.tasks | i != s.nextTask :: CallStart(s, project, cfg).tasks[i] == s.tasks[i]
  {
  }

  /** Each resumption of a task ends it or lowers its rank: no wait, no termination and no restart loop hangs. */
  lemma ResumptionLowersRank(s: Sup, id: nat, ok: bool, cfg: Config)
    requires cfg.Valid() && Inv(s, cfg) && id in s.tasks
    ensures var s' := ResumeTask(s, id, ok, cfg);
            id in s'.tasks ==> Rank(s', s'.tasks[id], cfg) < Rank(s, s.tasks[id], cfg)
  {
    hide ResumeTask, Rank, Inv;
    InvNames(s, cfg);
    var task := s.tasks[id];
    if task.IsStop() { StopResumptionLowersRank(s, id, ok, cfg); }
    else if task.IsRestart() { RestartResumptionLowersRank(s, id, ok, cfg); }
    else { StartResumptionLowersRank(s, id, ok, cfg); }
  }

  /** What a step that is not the task's own leaves alone. */
  ghost predicate Undisturbed(s: Sup, s': Sup, id: nat) {
    && s.nextTask <= s'.nextTask && s.generation <= s'.generation
    && (id in s.tasks <==> id in s'.tasks)
    && (id in s.tasks ==> s'.tasks[id] == s.tasks[id])
    && (id in s.tasks && IsActive(s.tasks[id], s.generation) && s'.generation == s.generation ==>
          s.retries <= s'.retries)
  }

  lemma OthersStartUndisturbed(s: Sup, j: nat, ok: bool, id: nat, cfg: Config)
    requires cfg.Valid() && Inv(s, cfg) && id < s.nextTask && j in s.tasks && j != id
    requires s.tasks[j].IsStart()
    ensures Undisturbed(s, ResumeTask(s, j, ok, cfg), id)
  {
    hide RespawnsSince, TotalBackoff, BackoffMs, BudgetInv, ChildrenInv, ChildSound;
    hide ActiveSound, TaskSound, Config.Polls, WaitAt, ResumeWait, CallStart;
    InvNames(s, cfg);
    assert IsActive(s.tasks[j], s.generation) ==> id in s.tasks ==> !IsActive(s.tasks[id], s.generation);
  }

  lemma OthersRestartUndisturbed(s: Sup, j: nat, ok: bool, id: nat, cfg: Config)
    requires cfg.Valid() && Inv(s, cfg) && id < s.nextTask && j in s.tasks && j != id
    requires s.tasks[j].IsRestart()
    ensures Undisturbed(s, ResumeTask(s, j, ok, cfg), id)
  {
    hide RespawnsSince, TotalBackoff, BackoffMs, BudgetInv, ChildrenInv, ChildSound;
    hide ActiveSound, TaskSound, Config.Polls, WaitAt, ResumeWait, CallStart;
    InvNames(s, cfg);
    assert IsActive(s.tasks[j], s.generation) ==> id in s.tasks ==> !IsActive(s.tasks[id], s.generation);
  }

  lemma OthersStopUndisturbed(s: Sup, j: nat, ok: bool, id: nat, cfg: Config)
    requires cfg.Valid() && Inv(s, cfg) && id < s.nextTask && j in s.tasks && j != id
    requires s.tasks[j].IsStop()
    ensures Undisturbed(s, ResumeTask(s, j, ok, cfg), id)
  {
    hide RespawnsSince, TotalBackoff, BackoffMs, BudgetInv, ChildrenInv, ChildSound;
    hide ActiveSound, TaskSound, Config.Polls, WaitAt, ResumeWait, CallStart;
    InvNames(s, cfg);
    if s.tasks[j].StopYielded? && s.tasks[j].thenStart.Some? {
      CallStartUndisturbed(s.Without(j), s.tasks[j].thenStart.value, id, cfg);
    }
  }

  lemma CallStartUndisturbed(s: Sup, project: string, id: nat, cfg: Config)
    requires cfg.Valid() && Named(s) && id < s.nextTask
    ensures Undisturbed(s, CallStart(s, project, cfg), id)
  {
    hide Config.Polls;
  }

  lemma OthersResumeUndisturbed(s: Sup, j: nat, ok: bool, id: nat, cfg: Config)
    requires cfg.Valid() && Inv(s, cfg) && id < s.nextTask && j in s.tasks && j != id
    ensures Undisturbed(s, ResumeTask(s, j, ok, cfg), id)
  {
    hide ResumeTask, Undisturbed, Inv;
    InvNames(s, cfg);
    var task := s.tasks[j];
    if task.IsStop() { OthersStopUndisturbed(s, j, ok, id, cfg); }
    else if task.IsRestart() { OthersRestartUndisturbed(s, j, ok, id, cfg); }
    else { OthersStartUndisturbed(s, j, ok, id, cfg); }
  }

  lemma OthersUndisturbed(s: Sup, e: Event, id: nat, cfg: Config)
    requires cfg.Valid() && Inv(s, cfg) && id < s.nextTask && !(e.Resume? && e.id == id)
    ensures Undisturbed(s, Step(s, e, cfg), id)
  {
    hide RespawnsSince, TotalBackoff, BackoffMs, ResumeTask, Config.Polls;
    if e.Resume? && e.id in s.tasks {
      OthersResumeUndisturbed(s, e.id, e.ok, id, cfg);
    }
  }

  lemma UndisturbedRank(s: Sup, s': Sup, id: nat, cfg: Config)
    requires cfg.Valid() && Undisturbed(s, s', id) && id in s.tasks && TaskSound(s.tasks[id], s.children, s.generation)
    ensures Rank(s', s'.tasks[id], cfg) <= Rank(s, s.tasks[id], cfg)
  {
    hide RoundRank, Config.Polls;
    var task := s.tasks[id];
    if IsActive(task, s'.generation) {
      RoundsMonotone(Max(0, cfg.maxRetries - s'.retries), Max(0, cfg.maxRetries - s.retries), RoundRank(cfg));
    }
  }

  lemma RoundsMonotone(a: nat, b: nat, k: nat)
    requires a <= b
    ensures a * k <= b * k
  {
  }

  lemma EndedStaysEnded(s: Sup, ok: bool, id: nat, cfg: Config)
    requires cfg.Valid() && Inv(s, cfg) && id in s.tasks
    ensures s.nextTask <= ResumeTask(s, id, ok, cfg).nextTask
  {
    hide RespawnsSince, TotalBackoff, BackoffMs, Inv, Config.Polls;
  }

  /** How often the events resume a task. */
  function Resumptions(events: seq<Event>, id: nat): nat {
    if events == [] then 0
    else (if events[0].Resume? && events[0].id == id then 1 else 0) + Resumptions(events[1..], id)
  }

  lemma {:induction false} AbsentStaysAbsent(s: Sup, events: seq<Event>, id: nat, cfg: Config)
    requires cfg.Valid() && Inv(s, cfg) && id < s.nextTask && id !in s.tasks
    ensures id !in Run(s, events, cfg).tasks
    decreases |events|
  {
    hide Inv, ResumeTask, CallStart, CallStop, OnChildGone;
    if events != [] {
      InvNames(s, cfg);
      StepKeepsInv(s, events[0], cfg);
      if events[0].Resume? && events[0].id == id {
        assert Step(s, events[0], cfg) == s;
      } else {
        OthersUndisturbed(s, events[0], id, cfg);
      }
      AbsentStaysAbsent(Step(s, events[0], cfg), events[1..], id, cfg);
    }
  }

  /**
   * Whatever else happens, a coroutine is over once it has been resumed as often as its rank: every start, every
   * restart episode (over all its attempts, polls and terminations) and every stop ends.
   */
  lemma {:induction false} EveryTaskEnds(s: Sup, events: seq<Event>, id: nat, cfg: Config)
    requires cfg.Valid() && Inv(s, cfg) && id in s.tasks
    requires Resumptions(events, id) >= Rank(s, s.tasks[id], cfg)
    ensures id !in Run(s, events, cfg).tasks
    decreases |events|
  {
    hide ResumeTask, CallStart, CallStop, OnChildGone, Rank, ChildrenInv, BudgetInv, ActiveSound;
    InvNames(s, cfg);
    if events == [] {
      RankIsPositive(s, s.tasks[id], cfg);
      assert false;
    } else {
      var e := events[0];
      var s' := Step(s, e, cfg);
      StepKeepsInv(s, e, cfg);
      if e.Resume? && e.id == id {
        ResumptionLowersRank(s, id, e.ok, cfg);
        EndedStaysEnded(s, e.ok, id, cfg);
      } else {
        OthersUndisturbed(s, e, id, cfg);
        UndisturbedRank(s, s', id, cfg);
      }
      if id in s'.tasks {
        EveryTaskEnds(s', events[1..], id, cfg);
      } else {
        AbsentStaysAbsent(s', events[1..], id, cfg);
      }
    }
  }

  lemma RankIsPositive(s: Sup, task: Task, cfg: Config)
    requires cfg.Valid()
    ensures Rank(s, task, cfg) > 0
  {
  }

  // ---------------------------------------------------------------- backoff

  /** The total backoff of `n` attempts is at most `n` times the cap, and at most the uncapped geometric sum. */
  lemma {:induction false} BackoffIsBounded(cfg: Config, n: nat)
    ensures TotalBackoff(cfg, n) <= n * cfg.backoffMaxMs
    ensures TotalBackoff(cfg, n) <= cfg.backoffBaseMs * (Pow2(n) - 1)
  {
    if n > 0 {
      BackoffIsBounded(cfg, n - 1);
      assert Pow2(n) == 2 * Pow2(n - 1);
      GeometricStep(cfg.backoffBaseMs, Pow2(n - 1));
      assert n * cfg.backoffMaxMs == (n - 1) * cfg.backoffMaxMs + cfg.backoffMaxMs;
    }
  }

  lemma GeometricStep(base: nat, p: nat)
    ensures base * (p - 1) + base * p == base * (2 * p - 1)
  {
  }

  /** At any moment an active restart episode has waited within both bounds for the attempts it has made. */
  lemma EpisodeWaitsWithinBounds(events: seq<Event>, cfg: Config, id: nat)
    requires cfg.Valid()
    requires var s := Run(INITIAL_SUP, events, cfg);
             && id in s.tasks && IsActive(s.tasks[id], s.generation)
             && s.tasks[id].IsRestart()
    ensures var s := Run(INITIAL_SUP, events, cfg);
            && 1 <= s.retries <= cfg.maxRetries
            && s.tasks[id].waited <= s.retries * cfg.backoffMaxMs
            && s.tasks[id].waited <= cfg.backoffBaseMs * (Pow2(s.retries) - 1)
  {
    InvInitial(cfg);
    RunKeepsInv(INITIAL_SUP, events, cfg);
    var s := Run(INITIAL_SUP, events, cfg);
    BackoffIsBounded(cfg, s.retries);
  }

  // ---------------------------------------------------------------- what does not hold

  /**
   * When a wait has seen a healthy probe, becoming healthy keeps a tracked process exactly if it is not gone
   * meanwhile. This speaks of the step alone; `HealthyHasProcessIff` says when a healthy state has a process.
   */
  lemma HealthyTracksIff(s: Sup, id: nat, ok: bool, cfg: Config)
    requires cfg.Valid() && Inv(s, cfg) && id in s.tasks && s.Current(s.generation)
    requires IsActive(s.tasks[id], s.generation)
    requires (s.tasks[id].StartWaiting? || s.tasks[id].RestartWaiting?) && s.tasks[id].w == Decided(true)
    ensures ResumeTask(s, id, ok, cfg).status == Healthy
    ensures ResumeTask(s, id, ok, cfg).child == Some(s.tasks[id].child) <==> !s.children[s.tasks[id].child].gone
  {
    hide RespawnsSince, TotalBackoff, BackoffMs, BudgetInv, Config.Polls;
    var c := s.tasks[id].child;
    assert s.child == Some(c) ==> ChildSound(s.children[c], true, s.generation, s.stopping);
  }

  /** A process lost between its last probe and its answer leaves the supervisor healthy with nothing tracked. */
  lemma HealthyWithoutProcess(cfg: Config)
    requires cfg.Valid()
    ensures var s := Run(INITIAL_SUP, [StartCall("p"), ChildExit(0), Resume(0, true), Resume(0, true)], cfg);
            s.status == Healthy && s.child.None? && s.children[0].exited
  {
    hide RespawnsSince, Config.Polls;
    InvInitial(cfg);
    RunOf4(INITIAL_SUP, StartCall("p"), ChildExit(0), Resume(0, true), Resume(0, true), cfg);
  }

  /** A start that overlaps a stop still under way runs a second process beside the one being terminated. */
  lemma StartOverlapsStop(cfg: Config)
    requires cfg.Valid()
    ensures var s := Run(INITIAL_SUP, [StartCall("p"), StopCall, StartCall("p"), Resume(2, true)], cfg);
            && |s.children| == 2 && !s.children[0].exited && !s.children[1].exited
            && s.children[0].terminating && s.child == Some(1)
  {
    hide RespawnsSince, Config.Polls;
    InvInitial(cfg);
    RunOf4(INITIAL_SUP, StartCall("p"), StopCall, StartCall("p"), Resume(2, true), cfg);
  }

  lemma RunOf4(s: Sup, a: Event, b: Event, c: Event, d: Event, cfg: Config)
    requires cfg.Valid() && Inv(s, cfg)
    ensures Inv(Step(s, a, cfg), cfg) && Inv(Step(Step(s, a, cfg), b, cfg), cfg)
    ensures Inv(Step(Step(Step(s, a, cfg), b, cfg), c, cfg), cfg)
    ensures Run(s, [a, b, c, d], cfg) == Step(Step(Step(Step(s, a, cfg), b, cfg), c, cfg), d, cfg)
  {
    hide Inv, Step, Named;
    InvNames(s, cfg);
    var s1 := Step(s, a, cfg);
    StepKeepsInv(s, a, cfg);
    InvNames(s1, cfg);
    var s2 := Step(s1, b, cfg);
    StepKeepsInv(s1, b, cfg);
    InvNames(s2, cfg);
    var s3 := Step(s2, c, cfg);
    StepKeepsInv(s2, c, cfg);
    InvNames(s3, cfg);
    var s4 := Step(s3, d, cfg);
    assert [a, b, c, d][1..] == [b, c, d] && [b, c, d][1..] == [c, d] && [c, d][1..] == [d] && [d][1..] == [];
    assert Run(s4, [], cfg) == s4;
    assert Run(s3, [d], cfg) == Run(s4, [], cfg);
    assert Run(s2, [c, d], cfg) == Run(s3, [d], cfg);
    assert Run(s1, [b, c, d], cfg) == Run(s2, [c, d], cfg);
  }
}
