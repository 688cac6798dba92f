/**
 * The supervisor as an object whose fields its coroutines update. Every method runs from one await to the next and is
 * the corresponding step of the protocol.
 */
module DaemonSupervisors {
  import opened Basics
  import opened DaemonSupervision

  class DaemonSupervisor {
    const cfg: Config
    var generation: nat
    var child: Option<nat>
    var stopping: bool
    var retries: nat
    var status: Status
    var starting: Option<nat>
    var projectId: Option<string>
    var children: seq<Child>        // every process spawned so far
    var suspended: map<nat, Task>   // the coroutines and the awaits they are at
    var nextTask: nat
    ghost var notes: seq<Note>

    ghost function View(): Sup
      reads this
    {
      Sup(generation, child, stopping, retries, status, starting, projectId, children, suspended, nextTask, notes)
    }

    ghost predicate Valid()
      reads this
    {
      cfg.Valid() && Inv(View(), cfg)
    }

    constructor (cfg: Config)
      requires cfg.Valid()
      ensures Valid() && View() == INITIAL_SUP && this.cfg == cfg
    {
      this.cfg := cfg;
      generation, child, stopping, retries, status := 0, None, false, 0, Stopped;
      starting, projectId, children, suspended, nextTask, notes := None, None, [], map[], 0, [];
      new;
      InvInitial(cfg);
    }

    // ---------------------------------------------------------------- pieces

    method SpawnChild(g: nat, ghost respawn: bool) returns (c: nat)
      modifies this`children, this`child, this`notes
      ensures View() == DaemonSupervision.SpawnChild(old(View()), g, respawn) && c == |old(children)|
    {
      c := |children|;
      notes := notes + [Spawned(g, generation, stopping, child, respawn)];
      children := children + [Child(g, false, false, false, false, false)];
      child := Some(c);
    }

    method EnterPoll(g: nat, c: nat, left: nat) returns (w: Wait)
      ensures w == WaitAt(View(), g, c, left)
    {
      if g != generation || stopping {
        return Decided(false);
      }
      if child != Some(c) {
        return Decided(false);
      }
      return Probing(left);
    }

    method ContinueWait(g: nat, c: nat, w: Wait, ok: bool) returns (w': Wait)
      requires !w.Decided?
      ensures w' == ResumeWait(View(), g, c, w, ok)
    {
      match w {
        case Probing(left) =>
          if g != generation || stopping {
            return Decided(false);
          }
          if ok {
            return Decided(true);
          }
          return if left > 0 then Pausing(left - 1) else Decided(false);
        case Pausing(left) =>
          w' := EnterPoll(g, c, left);
      }
    }

    method StartTerminating(c: nat) returns (t: Termination)
      requires c < |children|
      modifies this`children
      ensures (View(), t) == BeginTerminate(old(View()), c)
    {
      if children[c].gone {
        return Reaped;
      }
      children := children[c := children[c].(terminating := true)];
      return Grace;
    }

    method ContinueTerminating(c: nat, t: Termination) returns (t': Termination)
      requires c < |children| && t != Reaped
      modifies this`children
      ensures (View(), t') == ResumeTerminate(old(View()), c, t)
    {
      if children[c].exited {
        return Reaped;
      }
      var late := children[c].unanswered || t == LastGrace;
      children := children[c := children[c].(killed := true, unanswered := late)];
      return if t == Grace then LastGrace else Reaped;
    }

    method DoStart(id: nat, g: nat, project: string)
      requires cfg.Valid()
      modifies this
      ensures View() == DaemonSupervision.DoStart(old(View()), id, g, project, cfg)
    {
      stopping := false;
      projectId := Some(project);
      retries := 0;
      status := Starting;
      var c := SpawnChild(g, false);
      var w := EnterPoll(g, c, cfg.Polls() - 1);
      suspended := suspended[id := StartWaiting(g, c, w)];
    }

    /** The head of the restart loop: give up, or count an attempt and back off. */
    method RestartLoop(id: nat, g: nat, waited: nat)
      modifies this`retries, this`status, this`suspended
      ensures View() == LoopHead(old(View()), id, g, waited, cfg)
    {
      if g != generation || stopping {
        suspended := suspended - {id};
        return;
      }
      if retries >= cfg.maxRetries {
        status := Failed;
        suspended := suspended - {id};
        return;
      }
      retries := retries + 1;
      status := Restarting;
      suspended := suspended[id := RestartBackingOff(g, waited + BackoffMs(cfg, retries - 1))];
    }

    method EnterHealthy(g: nat, ghost c: nat)
      requires c < |children|
      modifies this`retries, this`status, this`notes
      ensures View() == BecomeHealthy(old(View()), g, c)
    {
      retries := 0;
      status := Healthy;
      notes := notes + [BecameHealthy(g, children[c].gone)];
    }

    // ---------------------------------------------------------------- calls

    method Start(project: string)
      requires Valid()
      modifies this
      ensures Valid() && View() == CallStart(old(View()), project, cfg)
    {
      hide TasksInv, BudgetInv, ChildSound, NoteSound, DaemonSupervision.DoStart;
      CallStartKeepsInv(View(), project, cfg);
      if starting.Some? {
        return;
      }
      if status == Healthy && projectId == Some(project) && child.Some? {
        return;
      }
      generation := generation + 1;
      var id := nextTask;
      nextTask := nextTask + 1;
      starting := Some(id);
      var oldChild := child;
      child := None;
      if oldChild.Some? {
        var t := StartTerminating(oldChild.value);
        suspended := suspended[id := StartReaping(generation, project, oldChild.value, t)];
      } else {
        DoStart(id, generation, project);
      }
    }

    /** Stop; a restart call is a stop that goes on to start. */
    method Stop(thenStart: Option<string>)
      requires Valid()
      modifies this
      ensures Valid() && View() == CallStop(old(View()), thenStart)
    {
      hide TasksInv, BudgetInv, ChildSound, NoteSound;
      CallStopKeepsInv(View(), thenStart, cfg);
      stopping := true;
      generation := generation + 1;
      starting := None;
      var id := nextTask;
      nextTask := nextTask + 1;
      var oldChild := child;
      child := None;
      if oldChild.Some? {
        var t := StartTerminating(oldChild.value);
        suspended := suspended[id := StopTerminating(oldChild.value, t, thenStart)];
      } else {
        status := Stopped;
        suspended := suspended[id := StopYielded(thenStart)];
      }
    }

    // ---------------------------------------------------------------- child events

    method OnChildGone(c: nat)
      requires c < |children|
      modifies this
      ensures View() == DaemonSupervision.OnChildGone(old(View()), c, cfg)
    {
      var g := children[c].generation;
      children := children[c := children[c].(gone := true)];
      if g != generation || stopping {
        return;
      }
      if child != Some(c) {
        return;
      }
      child := None;
      if status != Healthy {
        return;
      }
      var id := nextTask;
      nextTask := nextTask + 1;
      RestartLoop(id, g, 0);
    }

    method OnExit(c: nat)
      requires Valid() && c < |children| && !children[c].exited
      modifies this
      ensures Valid() && View() == Step(old(View()), ChildExit(c), cfg)
    {
      StepKeepsInv(View(), ChildExit(c), cfg);
      children := children[c := children[c].(exited := true)];
      if !children[c].gone {
        OnChildGone(c);
      }
    }

    method OnError(c: nat)
      requires Valid() && c < |children|
      modifies this
      ensures Valid() && View() == Step(old(View()), ChildError(c), cfg)
    {
      StepKeepsInv(View(), ChildError(c), cfg);
      if !children[c].gone {
        OnChildGone(c);
      }
    }

    // ---------------------------------------------------------------- resumptions

    method ResumeStart(id: nat, ok: bool)
      requires Valid() && id in suspended && Named(View())
      requires suspended[id].IsStart()
      modifies this
      ensures View() == ResumeTask(old(View()), id, ok, cfg)
    {
      hide Inv, ResumeWait, WaitAt, DaemonSupervision.DoStart;
      match suspended[id] {
        case StartReaping(g, project, c, t) =>
          if t != Reaped {
            var t' := ContinueTerminating(c, t);
            suspended := suspended[id := StartReaping(g, project, c, t')];
          } else if g != generation {
            suspended := suspended[id := StartSettled(g)];
          } else {
            DoStart(id, g, project);
          }
        case StartWaiting(g, c, w) =>
          if !w.Decided? {
            var w' := ContinueWait(g, c, w, ok);
            suspended := suspended[id := StartWaiting(g, c, w')];
          } else if g != generation || stopping {
            suspended := suspended[id := StartSettled(g)];
          } else if w.healthy {
            EnterHealthy(g, c);
            suspended := suspended[id := StartSettled(g)];
          } else {
            if child == Some(c) {
              child := None;
            }
            var t := StartTerminating(c);
            suspended := suspended[id := StartDiscarding(g, c, t)];
          }
        case StartDiscarding(g, c, t) =>
          if t != Reaped {
            var t' := ContinueTerminating(c, t);
            suspended := suspended[id := StartDiscarding(g, c, t')];
          } else {
            if g == generation && !stopping {
              status := Failed;
            }
            suspended := suspended[id := StartSettled(g)];
          }
        case StartSettled(g) =>
          if starting == Some(id) {
            starting := None;
          }
          suspended := suspended - {id};
      }
    }

    method ResumeRestart(id: nat, ok: bool)
      requires Valid() && id in suspended && Named(View())
      requires suspended[id].IsRestart()
      modifies this
      ensures View() == ResumeTask(old(View()), id, ok, cfg)
    {
      hide Inv, ResumeWait, WaitAt, LoopHead;
      match suspended[id] {
        case RestartBackingOff(g, waited) =>
          if g != generation || stopping {
            suspended := suspended - {id};
          } else {
            var c := SpawnChild(g, true);
            var w := EnterPoll(g, c, cfg.Polls() - 1);
            suspended := suspended[id := RestartWaiting(g, c, w, waited)];
          }
        case RestartWaiting(g, c, w, waited) =>
          if !w.Decided? {
            var w' := ContinueWait(g, c, w, ok);
            suspended := suspended[id := RestartWaiting(g, c, w', waited)];
          } else if g != generation || stopping {
            suspended := suspended - {id};
          } else if w.healthy {
            EnterHealthy(g, c);
            suspended := suspended - {id};
          } else {
            if child == Some(c) {
              child := None;
            }
            var t := StartTerminating(c);
            suspended := suspended[id := RestartDiscarding(g, c, t, waited)];
          }
        case RestartDiscarding(g, c, t, waited) =>
          if t != Reaped {
            var t' := ContinueTerminating(c, t);
            suspended := suspended[id := RestartDiscarding(g, c, t', waited)];
          } else {
            RestartLoop(id, g, waited);
          }
      }
    }

    method ResumeStop(id: nat)
      requires Valid() && id in suspended && Named(View()) && suspended[id].IsStop()
      modifies this
      ensures forall ok :: View() == ResumeTask(old(View()), id, ok, cfg)
    {
      match suspended[id] {
        case StopTerminating(c, t, thenStart) =>
          if t != Reaped {
            var t' := ContinueTerminating(c, t);
            suspended := suspended[id := StopTerminating(c, t', thenStart)];
          } else {
            status := Stopped;
            suspended := suspended[id := StopYielded(thenStart)];
          }
        case StopYielded(thenStart) =>
          WithoutKeepsInv(View(), id, cfg);
          suspended := suspended - {id};
          if thenStart.Some? {
            Start(thenStart.value);
          }
      }
    }

    /** Resume whichever coroutine has the id; `ok` answers the probe it may be awaiting. */
    method Resumed(id: nat, ok: bool)
      requires Valid() && id in suspended
      modifies this
      ensures Valid() && View() == Step(old(View()), Resume(id, ok), cfg)
    {
      hide ResumeTask;
      InvNames(View(), cfg);
      StepKeepsInv(View(), Resume(id, ok), cfg);
      var task := suspended[id];
      if task.IsStop() {
        ResumeStop(id);
      } else if task.IsRestart() {
        ResumeRestart(id, ok);
      } else {
        ResumeStart(id, ok);
      }
    }
  }
}
