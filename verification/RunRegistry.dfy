// src/api/routers/runs.py: create and resume requests interleave at their awaits with each other and
// with the pipeline tasks they start; at most one task is ever live. Each code section between two
// awaits is one atomic step. The status a resume reads is arbitrary: it may be stale by the time the
// resume acts on it.
module RunRegistry {
  import opened Common

  type RunId = string

  datatype Status = Pending | Running | Interrupted | Completed | FailedRun

  // A resume request between its awaits: reading the record, or building the graph with it.
  datatype Resume = Reading(run: RunId) | Building(run: RunId, status: Status)

  // One background task; done is task.done().
  datatype Task = Task(run: RunId, done: bool)

  // tasks: every task ever created; active: app.state.active_runs, naming tasks by index.
  datatype App = App(tasks: seq<Task>, active: map<RunId, nat>, resumes: map<nat, Resume>)

  const INITIAL := App([], map[], map[])

  datatype Action =
    | Create(run: RunId, buildFails: bool)
    | ResumeArrives(request: nat, run: RunId)
    | RecordRead(request: nat, record: Option<Status>)
    | GraphBuilt(request: nat, fails: bool)
    | TaskEnds(task: nat)

  ghost predicate Known(app: App) {
    forall r :: r in app.active ==> app.active[r] < |app.tasks|
  }

  ghost predicate Live(app: App, i: int) {
    0 <= i < |app.tasks| && !app.tasks[i].done
  }

  // _has_active_run(...) is not None
  ghost predicate HasActiveRun(app: App)
    requires Known(app)
  {
    exists r :: r in app.active && !app.tasks[app.active[r]].done
  }

  // create_task and the registration, with no await in between.
  ghost function Start(app: App, run: RunId): App {
    app.(tasks := app.tasks + [Task(run, false)], active := app.active[run := |app.tasks|])
  }

  ghost function Step(app: App, a: Action): App
    requires Known(app)
  {
    match a
    case Create(run, buildFails) =>
      if HasActiveRun(app) || buildFails then app else Start(app, run)
    case ResumeArrives(request, run) =>
      if request in app.resumes then app else app.(resumes := app.resumes[request := Reading(run)])
    case RecordRead(request, record) =>
      if request !in app.resumes || !app.resumes[request].Reading? then app
      else if record.None? then app.(resumes := app.resumes - {request})
      else app.(resumes := app.resumes[request := Building(app.resumes[request].run, record.value)])
    case GraphBuilt(request, fails) =>
      if request !in app.resumes || !app.resumes[request].Building? then app
      else
        var resume, rest := app.resumes[request], app.(resumes := app.resumes - {request});
        if fails || HasActiveRun(app) || resume.status != Interrupted then rest
        else Start(rest, resume.run)
    case TaskEnds(i) =>
      if i < |app.tasks| then app.(tasks := app.tasks[i := app.tasks[i].(done := true)]) else app
  }

  // --- the handlers ----------------------------------------------------------------

  class AppState {
    var tasks: seq<Task>
    var activeRuns: map<RunId, nat>
    var resumes: map<nat, Resume>

    ghost function View(): App
      reads this
    {
      App(tasks, activeRuns, resumes)
    }

    ghost predicate Valid()
      reads this
    {
      Known(View())
    }

    constructor ()
      ensures Valid() && View() == INITIAL
    {
      tasks, activeRuns, resumes := [], map[], map[];
    }

    // _has_active_run: a registered run whose task is not done, if any.
    method FindActiveRun() returns (r: Option<RunId>)
      requires Valid()
      ensures r.Some? <==> HasActiveRun(View())
      ensures r.Some? ==> r.value in activeRuns && !tasks[activeRuns[r.value]].done
    {
      var remaining := activeRuns.Keys;
      while remaining != {}
        invariant remaining <= activeRuns.Keys
        invariant forall k :: k in activeRuns && k !in remaining ==> tasks[activeRuns[k]].done
        decreases remaining
      {
        var k :| k in remaining;
        if !tasks[activeRuns[k]].done {
          return Some(k);
        }
        remaining := remaining - {k};
      }
      return None;
    }

    method Register(run: RunId)
      requires Valid()
      modifies this`tasks, this`activeRuns
      ensures Valid() && View() == Start(old(View()), run)
      ensures tasks == old(tasks) + [Task(run, false)] && activeRuns == old(activeRuns)[run := |old(tasks)|]
      ensures resumes == old(resumes)
    {
      tasks := tasks + [Task(run, false)];
      activeRuns := activeRuns[run := |tasks| - 1];
    }

    // create_run, which never awaits; false is the 409 or the failed graph build.
    method CreateRun(run: RunId, buildFails: bool) returns (created: bool)
      requires Valid()
      modifies this
      ensures Valid() && View() == Step(old(View()), Create(run, buildFails))
      ensures created <==> !old(HasActiveRun(View())) && !buildFails
      ensures created ==> tasks == old(tasks) + [Task(run, false)] && activeRuns == old(activeRuns)[run := |old(tasks)|]
      ensures !created ==> tasks == old(tasks) && activeRuns == old(activeRuns)
      ensures resumes == old(resumes)
    {
      var active := FindActiveRun();
      if active.Some? || buildFails {
        return false;
      }
      Register(run);
      return true;
    }

    // do_resume after its second await.
    method ContinueResume(request: nat, fails: bool) returns (resumed: bool)
      requires Valid()
      requires request in resumes && resumes[request].Building?
      modifies this
      ensures Valid() && View() == Step(old(View()), GraphBuilt(request, fails))
      ensures resumed <==> !fails && !old(HasActiveRun(View())) && old(resumes)[request].status == Interrupted
      ensures
        var run := old(resumes)[request].run;
        resumed ==> tasks == old(tasks) + [Task(run, false)] && activeRuns == old(activeRuns)[run := |old(tasks)|]
      ensures !resumed ==> tasks == old(tasks) && activeRuns == old(activeRuns)
      ensures resumes == old(resumes) - {request}
    {
      var resume := resumes[request];
      resumes := resumes - {request};
      if fails {
        return false;
      }
      var active := FindActiveRun();
      if active.Some? || resume.status != Interrupted {
        return false;
      }
      Register(resume.run);
      return true;
    }
  }

  // --- every interleaving ----------------------------------------------------------

  // Every live task is the one registered under its own run, and no two tasks are live.
  ghost predicate Inv(app: App) {
    && Known(app)
    && (forall i :: Live(app, i) ==> app.tasks[i].run in app.active && app.active[app.tasks[i].run] == i)
    && forall i, j :: Live(app, i) && Live(app, j) ==> i == j
  }

  lemma LiveIsActive(app: App)
    requires Inv(app)
    ensures forall i :: Live(app, i) ==> HasActiveRun(app)
  {
    forall i | Live(app, i) ensures HasActiveRun(app) {
      assert !app.tasks[app.active[app.tasks[i].run]].done;
    }
  }

  lemma StartKeepsInv(app: App, run: RunId)
    requires Inv(app) && !HasActiveRun(app)
    ensures Inv(Start(app, run))
  {
    LiveIsActive(app);
    var app' := Start(app, run);
    assert forall i :: 0 <= i < |app.tasks| ==> (Live(app', i) <==> Live(app, i));
  }

  lemma EndKeepsInv(app: App, task: nat)
    requires Inv(app)
    ensures Inv(Step(app, TaskEnds(task)))
  {
    var app' := Step(app, TaskEnds(task));
    assert forall i :: Live(app', i) ==> Live(app, i) && app'.tasks[i] == app.tasks[i];
  }

  lemma StepKeepsInv(app: App, a: Action)
    requires Inv(app)
    ensures Inv(Step(app, a))
  {
    match a
    case Create(run, _) =>
      if !HasActiveRun(app) {
        StartKeepsInv(app, run);
      }
    case GraphBuilt(request, _) =>
      if request in app.resumes && !HasActiveRun(app) {
        var rest := app.(resumes := app.resumes - {request});
        assert Inv(rest) by {
          assert forall i :: Live(rest, i) <==> Live(app, i);
        }
        StartKeepsInv(rest, app.resumes[request].run);
      }
      SameTasksKeepInv(app, Step(app, a));
    case TaskEnds(i) => EndKeepsInv(app, i);
    case _ => SameTasksKeepInv(app, Step(app, a));
  }

  lemma SameTasksKeepInv(app: App, app': App)
    requires Inv(app)
    ensures app'.tasks == app.tasks && app'.active == app.active ==> Inv(app')
  {
    assert app'.tasks == app.tasks ==> forall i :: Live(app', i) <==> Live(app, i);
  }

  // The application after a sequence of atomic sections, earliest first.
  ghost function After(actions: seq<Action>): (app: App)
    ensures Inv(app)
  {
    if actions == [] then INITIAL
    else
      var n := |actions| - 1;
      var earlier := After(actions[..n]);
      StepKeepsInv(earlier, actions[n]);
      Step(earlier, actions[n])
  }

  // In every reachable interleaving at most one pipeline task is live; the in-memory check sees it,
  // so that a request is turned away if and only if some task really is live.
  lemma OneLiveTask(actions: seq<Action>)
    ensures forall i, j :: Live(After(actions), i) && Live(After(actions), j) ==> i == j
    ensures HasActiveRun(After(actions)) <==> exists i :: Live(After(actions), i)
  {
    var app := After(actions);
    if HasActiveRun(app) {
      var r :| r in app.active && !app.tasks[app.active[r]].done;
      assert Live(app, app.active[r]);
    }
    if i :| Live(app, i) {
      assert !app.tasks[app.active[app.tasks[i].run]].done;
    }
  }

  // The task a request starts, if the atomic section that decides it starts one.
  ghost function Accepted(app: App, a: Action): Option<RunId>
    requires Known(app)
  {
    match a
    case Create(run, buildFails) => if HasActiveRun(app) || buildFails then None else Some(run)
    case GraphBuilt(request, fails) =>
      if request in app.resumes && app.resumes[request].Building? && !fails && !HasActiveRun(app)
         && app.resumes[request].status == Interrupted
      then Some(app.resumes[request].run) else None
    case _ => None
  }

  // An accepted request appends one task of its own run, live and registered; every other section leaves
  // the registry alone and at most ends a task.
  lemma AcceptedStarts(app: App, a: Action)
    requires Inv(app)
    ensures
      var app', run := Step(app, a), Accepted(app, a);
      && (run.Some? ==>
            app'.tasks == app.tasks + [Task(run.value, false)] && app'.active == app.active[run.value := |app.tasks|])
      && (run.None? ==>
            && app'.active == app.active && |app'.tasks| == |app.tasks|
            && forall i :: 0 <= i < |app.tasks| ==>
                 && app'.tasks[i].run == app.tasks[i].run
                 && (app'.tasks[i].done <==> app.tasks[i].done || a == TaskEnds(i)))
  {
    hide HasActiveRun;
  }

  lemma StaysLive(app: App, a: Action, i: nat)
    requires Inv(app) && Live(app, i) && a != TaskEnds(i)
    ensures Live(Step(app, a), i) && Step(app, a).tasks[i].run == app.tasks[i].run
  {
    AcceptedStarts(app, a);
    hide Step, Accepted, Inv;
  }

  // A task once there stays what it is, and stays live until it ends.
  lemma {:induction false} LiveUntilItEnds(actions: seq<Action>, later: seq<Action>, i: nat)
    requires Live(After(actions), i) && TaskEnds(i) !in later
    ensures Live(After(actions + later), i) && After(actions + later).tasks[i].run == After(actions).tasks[i].run
    decreases |later|
  {
    hide After, Step, Inv, Known;
    if later == [] {
      assert actions + later == actions;
    } else {
      var n := |later| - 1;
      assert TaskEnds(i) !in later[..n] && later[n] != TaskEnds(i);
      LiveUntilItEnds(actions, later[..n], i);
      AfterOneMore(actions + later[..n], later[n]);
      assert actions + later == actions + later[..n] + [later[n]];
      StaysLive(After(actions + later[..n]), later[n], i);
    }
  }

  lemma AfterOneMore(actions: seq<Action>, a: Action)
    ensures Known(After(actions)) && After(actions + [a]) == Step(After(actions), a)
  {
    assert (actions + [a])[..|actions|] == actions;
  }

  // So after an accepted request its run has a live task, whatever comes next, until that task ends.
  lemma AcceptedRunLives(actions: seq<Action>, a: Action, later: seq<Action>)
    requires Accepted(After(actions), a).Some? && TaskEnds(|After(actions).tasks|) !in later
    ensures
      var app, i := After(actions + [a] + later), |After(actions).tasks|;
      Live(app, i) && app.tasks[i].run == Accepted(After(actions), a).value
  {
    AcceptedStarts(After(actions), a);
    AfterOneMore(actions, a);
    hide After, Step, Accepted;
    LiveUntilItEnds(actions + [a], later, |After(actions).tasks|);
  }

  lemma StepResumes(app: App, a: Action, request: nat)
    requires Known(app) && request in Step(app, a).resumes
    ensures
      var now := Step(app, a).resumes[request];
      || (request in app.resumes && now == app.resumes[request])
      || (now.Reading? && a == ResumeArrives(request, now.run))
      || (now.Building? && request in app.resumes && app.resumes[request] == Reading(now.run)
          && a == RecordRead(request, Some(now.status)))
  {
    hide HasActiveRun;
  }

  // A request between its awaits goes back to its own arrival, and what it acts on to a record it read.
  lemma {:induction false} ResumeIsTraced(actions: seq<Action>, request: nat)
    requires request in After(actions).resumes
    ensures
      var resume := After(actions).resumes[request];
      && ResumeArrives(request, resume.run) in actions
      && (resume.Building? ==> RecordRead(request, Some(resume.status)) in actions)
  {
    var n := |actions| - 1;
    if actions != [] {
      StepResumes(After(actions[..n]), actions[n], request);
      hide Step, Inv;
      assert actions == actions[..n] + [actions[n]];
      if request in After(actions[..n]).resumes {
        ResumeIsTraced(actions[..n], request);
      }
    }
  }

  lemma ResumeSteps(app: App, request: nat, run: RunId, record: Option<Status>)
    requires Inv(app) && request !in app.resumes
    ensures
      var arrived := Step(app, ResumeArrives(request, run));
      Known(arrived) && arrived == app.(resumes := app.resumes[request := Reading(run)])
      && Step(arrived, RecordRead(request, record)) ==
         app.(resumes := if record.Some? then app.resumes[request := Building(run, record.value)] else app.resumes)
  {
    hide HasActiveRun;
    var reading := app.resumes[request := Reading(run)];
    assert reading - {request} == app.resumes;
    assert record.Some? ==> reading[request := Building(run, record.value)] == app.resumes[request := Building(run, record.value)];
  }

  // A resume whose record is found waits with its status for the graph; one whose record is missing is
  // forgotten.
  lemma ResumeWaits(actions: seq<Action>, request: nat, run: RunId, record: Option<Status>)
    requires request !in After(actions).resumes
    ensures
      var app := After(actions);
      After(actions + [ResumeArrives(request, run), RecordRead(request, record)]) ==
      app.(resumes := if record.Some? then app.resumes[request := Building(run, record.value)] else app.resumes)
  {
    var arrives, found := ResumeArrives(request, run), RecordRead(request, record);
    assert actions + [arrives, found] == actions + [arrives] + [found];
    AfterOneMore(actions, arrives);
    AfterOneMore(actions + [arrives], found);
    hide After, Step, HasActiveRun, Inv;
    ResumeSteps(After(actions), request, run, record);
    assert After(actions + [arrives, found]) == Step(Step(After(actions), arrives), found);
  }

  // So an undisturbed resume of an interrupted run starts it, exactly when nothing is live and the graph
  // builds.
  lemma InterruptedRunResumes(actions: seq<Action>, request: nat, run: RunId, fails: bool)
    requires request !in After(actions).resumes
    ensures
      var read := actions + [ResumeArrives(request, run), RecordRead(request, Some(Interrupted))];
      Accepted(After(read), GraphBuilt(request, fails)) ==
      if fails || exists i :: Live(After(actions), i) then None else Some(run)
  {
    ResumeWaits(actions, request, run, Some(Interrupted));
    var read := actions + [ResumeArrives(request, run), RecordRead(request, Some(Interrupted))];
    OneLiveTask(read);
    hide After, HasActiveRun, Step;
    assert forall i :: Live(After(read), i) <==> Live(After(actions), i);
  }

  // No resume starts a task but one that arrived for that very run and read it as interrupted.
  lemma ResumedWasInterrupted(actions: seq<Action>, request: nat, fails: bool)
    requires Accepted(After(actions), GraphBuilt(request, fails)).Some?
    ensures
      var run := Accepted(After(actions), GraphBuilt(request, fails)).value;
      ResumeArrives(request, run) in actions && RecordRead(request, Some(Interrupted)) in actions
  {
    ResumeIsTraced(actions, request);
  }

  // A registration never displaces a live task from the registry.
  lemma RegistrationDisplacesOnlyDoneTasks(actions: seq<Action>, a: Action, run: RunId)
    requires run in After(actions).active
    ensures
      var app := After(actions);
      run in Step(app, a).active &&
      (Step(app, a).active[run] != app.active[run] ==> !Live(app, app.active[run]))
  {
  }
}
