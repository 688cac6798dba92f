/**
 * The project controller as an object: one live supervisor and shell, replaced by bodies chained through one tail.
 * Every method runs from one await to the next and is the corresponding step of the protocol; the supervisors are
 * objects.
 */
module OpenProject {
  import opened Basics
  import opened DaemonSupervision
  import opened ProjectControllers
  import opened DaemonSupervisors

  class ProjectController {
    const cfg: Config
    var supervisor: Option<nat>
    var shell: Option<nat>
    var currentProjectId: Option<string>
    var jobs: seq<Job>                 // the tail: every call chained so far
    var shells: seq<Shell>
    var owned: seq<DaemonSupervisor>   // every supervisor created so far
    var stopTasks: map<nat, nat>       // the stops that teardowns await

    ghost function ViewOf(k: nat): Owned
      requires k < |owned|
      reads this, owned[k]
    {
      Owned(owned[k].View(), k in stopTasks, if k in stopTasks then stopTasks[k] else 0)
    }

    ghost function View(): (c: Controller)
      reads this, owned
      ensures |c.owned| == |owned|
      ensures forall k: nat | k < |owned| :: c.owned[k] == ViewOf(k)
    {
      Controller(supervisor, shell, currentProjectId,
                 seq(|owned|, k requires 0 <= k < |owned| reads this, owned => ViewOf(k)), shells, jobs)
    }

    ghost predicate Separate()
      reads this, owned
    {
      && (forall k: nat | k < |owned| :: owned[k].cfg == cfg)
      && (forall k <- stopTasks :: k < |owned|)
      && (forall k: nat, l: nat | k < l < |owned| :: owned[k] != owned[l])
    }

    ghost predicate Valid()
      reads this, owned
    {
      cfg.Valid() && Separate() && ControllerInv(View(), cfg)
    }

    constructor (cfg: Config)
      requires cfg.Valid()
      ensures Valid() && View() == INITIAL_CONTROLLER && this.cfg == cfg
    {
      this.cfg := cfg;
      supervisor, shell, currentProjectId, jobs, shells, owned, stopTasks := None, None, None, [], [], [], map[];
      new;
      InitialControllerInv(cfg);
    }

    lemma SupervisorValid(k: nat)
      requires Valid() && k < |owned|
      ensures owned[k].Valid() && owned[k] in owned
    {
      hide Inv;
      assert OwnedSound(View().owned[k], supervisor == Some(k), cfg);
      assert View().owned[k] == ViewOf(k);
    }

    lemma ViewIs(c: Controller)
      requires c.supervisor == supervisor && c.shell == shell && c.project == currentProjectId
      requires c.shells == shells && c.jobs == jobs && |c.owned| == |owned|
      requires forall k: nat | k < |owned| :: c.owned[k] == ViewOf(k)
      ensures View() == c
    {
      assert View().owned == c.owned;
    }

    lemma StoppedHasTask(i: nat)
      requires Valid() && i < |jobs| && jobs[i].state.Running? && jobs[i].state.pc.StoppingOld?
      ensures jobs[i].state.pc.sup < |owned| && jobs[i].state.pc.sup in stopTasks
      ensures View().owned[jobs[i].state.pc.sup].stopTask == stopTasks[jobs[i].state.pc.sup]
    {
      hide Inv, AllSettledBut;
      var k := jobs[i].state.pc.sup;
      assert PcSound(View(), View().jobs[i].state.pc);
      assert OwnedSound(View().owned[k], supervisor == Some(k), cfg);
      assert View().owned[k] == ViewOf(k);
    }

    lemma TornDownIsBare(i: nat)
      requires Valid() && i < |jobs| && jobs[i].state.Running? && jobs[i].state.pc.TornDown?
      ensures supervisor.None? && shell.None?
    {
      hide Inv, AllSettledBut;
      assert PcSound(View(), View().jobs[i].state.pc);
    }

    // ---------------------------------------------------------------- calls

    method Chain(body: Body)
      requires Valid()
      modifies this`jobs
      ensures Valid() && View() == ControllerStep(old(View()), Ask(body), cfg)
    {
      hide ControllerInv;
      InvGivesRange(View(), cfg);
      AskKeepsInv(View(), body, cfg);
      jobs := jobs + [Job(body, Waiting)];
      ViewIs(ControllerStep(old(View()), Ask(body), cfg));
    }

    method OpenProject(projectId: string)
      requires Valid()
      modifies this`jobs
      ensures Valid() && View() == ControllerStep(old(View()), Ask(Open(projectId)), cfg)
    {
      Chain(Open(projectId));
    }

    method ReopenCurrentProject()
      requires Valid()
      modifies this`jobs
      ensures Valid() && View() == ControllerStep(old(View()), Ask(Reopen), cfg)
    {
      Chain(Reopen);
    }

    method Shutdown()
      requires Valid()
      modifies this`jobs
      ensures Valid() && View() == ControllerStep(old(View()), Ask(Body.Shutdown), cfg)
    {
      Chain(Body.Shutdown);
    }

    method ShowNoProject()
      requires Valid()
      modifies this`currentProjectId
      ensures Valid() && View() == ControllerStep(old(View()), ControllerEvent.ShowNoProject, cfg)
    {
      hide ControllerInv;
      InvGivesRange(View(), cfg);
      ControllerStepKeepsInv(View(), ControllerEvent.ShowNoProject, cfg);
      currentProjectId := None;
      ViewIs(ControllerStep(old(View()), ControllerEvent.ShowNoProject, cfg));
    }

    method RetryDaemon()
      requires Valid()
      modifies owned
      ensures Valid() && View() == ControllerStep(old(View()), Retry, cfg)
    {
      hide Inv, CallStart, AllSettledBut, PcSound;
      ControllerStepKeepsInv(View(), Retry, cfg);
      if supervisor.None? || currentProjectId.None? {
        return;
      }
      SupervisorValid(supervisor.value);
      owned[supervisor.value].Start(currentProjectId.value);
      ViewIs(ControllerStep(old(View()), Retry, cfg));
    }

    method RequestDaemonStop()
      requires Valid()
      modifies owned
      ensures Valid() && View() == ControllerStep(old(View()), RequestStop, cfg)
    {
      hide Inv, CallStop, AllSettledBut, PcSound;
      ControllerStepKeepsInv(View(), RequestStop, cfg);
      if supervisor.Some? {
        SupervisorValid(supervisor.value);
        owned[supervisor.value].Stop(None);
        ViewIs(ControllerStep(old(View()), RequestStop, cfg));
      }
    }

    // ---------------------------------------------------------------- the pieces of a body

    method CloseActiveShell(i: nat, sh: nat, next: Then)
      requires i < |jobs| && sh < |shells|
      modifies this`shells, this`jobs
      ensures View() == CloseShell(old(View()), i, sh, next)
    {
      shells := shells[sh := shells[sh].(closeCalled := true)];
      jobs := jobs[i := jobs[i].(state := Running(ClosingOld(sh, next)))];
      ViewIs(CloseShell(old(View()), i, sh, next));
    }

    ghost function Live(): set<DaemonSupervisor>
      reads this
    {
      if supervisor.Some? && supervisor.value < |owned| then {owned[supervisor.value]} else {}
    }

    /** Clear the fields, then stop the daemon, then close the shell. */
    method TeardownActive(i: nat, next: Then)
      requires Separate() && i < |jobs| && InRange(View())
      requires supervisor.Some? ==> owned[supervisor.value].Valid()
      modifies this, Live()
      ensures Separate() && owned == old(owned) && View() == BeginTeardown(old(View()), i, next)
    {
      hide Inv, CallStop, Named;
      var activeSupervisor, activeShell := supervisor, shell;
      supervisor, shell := None, None;
      if activeSupervisor.Some? {
        var k := activeSupervisor.value;
        assert View().owned[k] == ViewOf(k);
        stopTasks := stopTasks[k := owned[k].nextTask];
        owned[k].Stop(None);
        jobs := jobs[i := jobs[i].(state := Running(StoppingOld(k, activeShell, next)))];
      } else if activeShell.Some? {
        CloseActiveShell(i, activeShell.value, next);
      } else {
        jobs := jobs[i := jobs[i].(state := Running(TornDown(next)))];
      }
      ViewIs(BeginTeardown(old(View()), i, next));
    }

    method CreateSupervisor()
      requires Separate() && cfg.Valid() && InRange(View())
      modifies this`owned, this`supervisor
      ensures Separate() && |owned| == |old(owned)| + 1 && owned[..|old(owned)|] == old(owned)
      ensures fresh(owned[|old(owned)|]) && owned[|old(owned)|].Valid() && owned[|old(owned)|].View() == INITIAL_SUP
      ensures supervisor == Some(|old(owned)|)
      ensures View()
              == old(View()).(owned := old(View()).owned + [Owned(INITIAL_SUP, false, 0)], supervisor := supervisor)
      ensures InRange(View())
    {
      hide Inv, CallStop, CallStart;
      var k := |owned|;
      var newSupervisor := new DaemonSupervisor(cfg);
      owned := owned + [newSupervisor];
      supervisor := Some(k);
      ViewIs(old(View()).(owned := old(View()).owned + [Owned(INITIAL_SUP, false, 0)], supervisor := Some(k)));
    }

    /** The shell exists; the daemon is started before the shell connects. */
    method StartPair(i: nat, projectId: string)
      requires Separate() && i < |jobs| && InRange(View()) && supervisor.Some?
      requires owned[supervisor.value].Valid() && owned[supervisor.value].View() == INITIAL_SUP
      modifies this`shells, this`shell, this`jobs, owned[supervisor.value]
      ensures Separate()
      ensures var c, k, sh := old(View()), supervisor.value, |old(shells)|;
              View() == c.(shells := c.shells + [Shell(false, false, false)], shell := Some(sh))
                        .WithSup(k, CallStart(INITIAL_SUP, projectId, cfg)).With(i, Running(StartingDaemon(k, sh)))
    {
      hide Inv, CallStop, CallStart, Named;
      var k, sh := supervisor.value, |shells|;
      shells := shells + [Shell(false, false, false)];
      shell := Some(sh);
      assert old(View()).owned[k] == old(ViewOf(k));
      owned[k].Start(projectId);
      jobs := jobs[i := jobs[i].(state := Running(StartingDaemon(k, sh)))];
      ghost var c := old(View());
      ViewIs(c.(shells := c.shells + [Shell(false, false, false)], shell := Some(sh))
              .WithSup(k, CallStart(INITIAL_SUP, projectId, cfg)).With(i, Running(StartingDaemon(k, sh))));
    }

    /** Bind the project, create the supervisor and the shell, and start the daemon. */
    method CreatePair(i: nat, projectId: string, outcome: Outcome)
      requires Separate() && i < |jobs| && InRange(View()) && cfg.Valid() && supervisor.None? && shell.None?
      modifies this
      ensures Separate() && |old(owned)| <= |owned| && owned[..|old(owned)|] == old(owned)
      ensures forall k: nat | |old(owned)| <= k < |owned| :: fresh(owned[k])
      ensures View() == BuildPair(old(View()), i, projectId, outcome, cfg)
    {
      hide Inv, CallStop, CallStart, BeginTeardown;
      currentProjectId := Some(projectId);
      ViewIs(old(View()).(project := Some(projectId)));
      if outcome == FirstThrows {
        TeardownActive(i, Fail);
      } else {
        CreateSupervisor();
        if outcome == SecondThrows {
          TeardownActive(i, Fail);
        } else {
          StartPair(i, projectId);
        }
      }
    }

    // ---------------------------------------------------------------- bodies

    /** The tail before the call has settled: run the body up to its first await. */
    method Begin(i: nat)
      requires Valid() && MayBegin(jobs, i)
      modifies this, owned
      ensures Valid() && owned == old(owned) && View() == ControllerStep(old(View()), ControllerEvent.Begin(i), cfg)
    {
      hide ControllerInv, BeginTeardown;
      InvGivesRange(View(), cfg);
      ControllerStepKeepsInv(View(), ControllerEvent.Begin(i), cfg);
      if supervisor.Some? { SupervisorValid(supervisor.value); }
      match jobs[i].body {
        case Open(project) => TeardownActive(i, Build(project));
        case Reopen =>
          if currentProjectId.None? {
            jobs := jobs[i := jobs[i].(state := Settled(true))];
            ViewIs(ControllerStep(old(View()), ControllerEvent.Begin(i), cfg));
          } else {
            TeardownActive(i, Build(currentProjectId.value));
          }
        case Shutdown => TeardownActive(i, Finish);
      }
    }

    /** A teardown under way: the stop may have settled, or the close has. */
    method AdvanceTeardown(i: nat, outcome: Outcome)
      requires Valid() && i < |jobs| && jobs[i].state.Running? && InRange(View())
      requires jobs[i].state.pc.StoppingOld? || jobs[i].state.pc.ClosingOld?
      modifies this`jobs, this`shells
      ensures View() == AdvanceBody(old(View()), i, outcome, cfg)
    {
      hide ControllerInv, Named;
      ghost var next := AdvanceBody(View(), i, outcome, cfg);
      match jobs[i].state.pc {
        case StoppingOld(k, sh, after) =>
          StoppedHasTask(i);
          if stopTasks[k] !in owned[k].suspended {
            if sh.Some? {
              CloseActiveShell(i, sh.value, after);
            } else {
              jobs := jobs[i := jobs[i].(state := Running(TornDown(after)))];
              ViewIs(next);
            }
          }
        case ClosingOld(sh, after) =>
          shells := shells[sh := shells[sh].(closeCalled := true, closed := true)];
          jobs := jobs[i := jobs[i].(state := Running(TornDown(after)))];
          ViewIs(next);
      }
    }

    /** The teardown is over: build, or settle. */
    method AdvanceTornDown(i: nat, outcome: Outcome)
      requires Valid() && i < |jobs| && jobs[i].state.Running? && InRange(View()) && jobs[i].state.pc.TornDown?
      modifies this
      ensures Separate() && |old(owned)| <= |owned| && owned[..|old(owned)|] == old(owned)
      ensures forall k: nat | |old(owned)| <= k < |owned| :: fresh(owned[k])
      ensures View() == AdvanceBody(old(View()), i, outcome, cfg)
    {
      hide ControllerInv, BuildPair, Named;
      ghost var next := AdvanceBody(View(), i, outcome, cfg);
      TornDownIsBare(i);
      match jobs[i].state.pc.next {
        case Build(projectId) =>
          CreatePair(i, projectId, outcome);
        case Fail =>
          currentProjectId := None;
          jobs := jobs[i := jobs[i].(state := Settled(false))];
          ViewIs(next);
        case Finish =>
          jobs := jobs[i := jobs[i].(state := Settled(true))];
          ViewIs(next);
      }
    }

    /** The daemon start or the shell start has settled. */
    method AdvanceStart(i: nat, outcome: Outcome)
      requires Valid() && i < |jobs| && jobs[i].state.Running? && InRange(View())
      requires jobs[i].state.pc.StartingDaemon? || jobs[i].state.pc.StartingShell?
      modifies this, owned
      ensures Separate() && owned == old(owned) && View() == AdvanceBody(old(View()), i, outcome, cfg)
    {
      hide ControllerInv, BeginTeardown, Named;
      ghost var next := AdvanceBody(View(), i, outcome, cfg);
      if supervisor.Some? { SupervisorValid(supervisor.value); }
      match jobs[i].state.pc {
        case StartingDaemon(k, sh) =>
          assert View().owned[k] == ViewOf(k);
          if FIRST_START !in owned[k].suspended {
            if outcome == Succeeds {
              shells := shells[sh := shells[sh].(startCalled := true)];
              jobs := jobs[i := jobs[i].(state := Running(StartingShell(k, sh)))];
              ViewIs(next);
            } else {
              TeardownActive(i, Fail);
            }
          }
        case StartingShell(k, sh) =>
          if outcome == Succeeds {
            jobs := jobs[i := jobs[i].(state := Settled(true))];
            ViewIs(next);
          } else {
            TeardownActive(i, Fail);
          }
      }
    }

    /** What the running body awaits may have settled; if it has, run the body up to its next await. */
    method Advance(i: nat, outcome: Outcome)
      requires Valid() && i < |jobs| && jobs[i].state.Running?
      modifies this, owned
      ensures |old(owned)| <= |owned| && owned[..|old(owned)|] == old(owned)
      ensures forall k: nat | |old(owned)| <= k < |owned| :: fresh(owned[k])
      ensures Valid() && View() == ControllerStep(old(View()), ControllerEvent.Advance(i, outcome), cfg)
    {
      hide ControllerInv, AdvanceBody;
      InvGivesRange(View(), cfg);
      ControllerStepKeepsInv(View(), ControllerEvent.Advance(i, outcome), cfg);
      var pc := jobs[i].state.pc;
      if pc.TornDown? {
        AdvanceTornDown(i, outcome);
      } else if pc.StoppingOld? || pc.ClosingOld? {
        AdvanceTeardown(i, outcome);
      } else {
        AdvanceStart(i, outcome);
      }
    }
  }
}
