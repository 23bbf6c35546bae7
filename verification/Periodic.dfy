/**
 The periodic scheduler of `cbsd/cbslib/core/periodic.py`. Each lock-held section is one
 step; in between, other coroutines run. Adding a task, a runner that ends, disabling, and a
 restart that loads the tasks from disk interleave freely.
 */
module Periodic {
  import opened Wrappers

  type Uuid = nat

  /** A runner is named by its task and the moment it was created. */
  type RunnerId = (Uuid, nat)

  /**
   A runner sleeps and triggers; it reports how it went; it sets up its successor. A runner
   whose sleep fails returns without reporting.
   */
  datatype RunnerPhase = Live | Reporting(disable: bool) | SettingUp | Ended | Cancelled | Dead

  /** The part of `add_build_task` still to do; `data` is what the pending save will write. */
  datatype AddPhase = ToSetUp | ToSave | Saving(data: bool) | Added

  datatype Add = Add(uuid: Uuid, phase: AddPhase)

  /** What the lock protects: crons, descriptors (whether enabled) and scheduled runners; `now` counts runners made. */
  datatype Core = Core(crons: set<Uuid>, enabled: map<Uuid, bool>, tasks: map<Uuid, RunnerId>, now: nat)

  /** The whole service: protected state, runners, calls in progress, the saved flags, and the ids ever given out. */
  datatype System = System(
    core: Core, runners: map<RunnerId, RunnerPhase>, adds: map<nat, Add>, disk: map<Uuid, bool>, used: set<Uuid>)

  // --- Lock-held sections ---

  /** `_setup_task` schedules a run unless one is scheduled, or the cron or descriptor is missing, or the task is off. */
  predicate CanSetUp(c: Core, u: Uuid) {
    u !in c.tasks && u in c.crons && u in c.enabled && c.enabled[u]
  }

  function SetUpSpec(c: Core, u: Uuid): Core {
    if CanSetUp(c, u) then c.(tasks := c.tasks[u := (u, c.now)], now := c.now + 1) else c
  }

  function FinishSpec(c: Core, u: Uuid, disable: bool): Core {
    c.(tasks := c.tasks - {u}, enabled := if disable && u in c.enabled then c.enabled[u := false] else c.enabled)
  }

  /** `disable` on an enabled task: cron and scheduled run go, the flag goes down. */
  function DisableSpec(c: Core, u: Uuid): Core {
    c.(crons := c.crons - {u}, tasks := c.tasks - {u}, enabled := c.enabled[u := false])
  }

  predicate CanDisable(c: Core, u: Uuid) {
    u in c.enabled && c.enabled[u] && u in c.crons
  }

  /** The saved tasks whose cron parses are known again; those saved as enabled are scheduled. */
  function LoadSpec(disk: map<Uuid, bool>, bad: set<Uuid>, now: nat): Core {
    var good := disk.Keys - bad;
    Core(good, map u | u in good :: disk[u], map u | u in good && disk[u] :: (u, now), now + 1)
  }

  datatype Step =
    | AddTask(call: nat, uuid: Uuid)
    | AddSetsUp(call: nat)
    | AddSnapshots(call: nat)
    | AddSaves(call: nat, fault: bool)
    | TriggerEnds(runner: RunnerId, disable: bool)
    | SleepFails(runner: RunnerId)
    | Report(runner: RunnerId)
    | SetUpNext(runner: RunnerId)
    | Disable(uuid: Uuid, saveFault: bool)
    | Restart(badCrons: set<Uuid>)

  predicate Enabled(s: System, step: Step) {
    match step
    case AddTask(a, u) => a !in s.adds && u !in s.used
    case AddSetsUp(a) => a in s.adds && s.adds[a].phase.ToSetUp?
    case AddSnapshots(a) => a in s.adds && s.adds[a].phase.ToSave? && s.adds[a].uuid in s.core.enabled
    case AddSaves(a, _) => a in s.adds && s.adds[a].phase.Saving?
    case TriggerEnds(r, _) => r in s.runners && s.runners[r].Live?
    case SleepFails(r) => r in s.runners && s.runners[r].Live?
    case Report(r) => r in s.runners && s.runners[r].Reporting?
    case SetUpNext(r) => r in s.runners && s.runners[r].SettingUp?
    case Disable(_, _) => true
    case Restart(_) => true
  }

  function SetUp(s: System, u: Uuid): System {
    s.(core := SetUpSpec(s.core, u), runners := if CanSetUp(s.core, u) then s.runners[(u, s.core.now) := Live] else s.runners)
  }

  function Apply(s: System, step: Step): System
    requires Enabled(s, step)
  {
    match step
    case AddTask(a, u) =>
      var core := s.core.(crons := s.core.crons + {u}, enabled := s.core.enabled[u := true]);
      s.(core := core, adds := s.adds[a := Add(u, ToSetUp)], used := s.used + {u})
    case AddSetsUp(a) =>
      SetUp(s, s.adds[a].uuid).(adds := s.adds[a := s.adds[a].(phase := ToSave)])
    case AddSnapshots(a) =>
      s.(adds := s.adds[a := s.adds[a].(phase := Saving(s.core.enabled[s.adds[a].uuid]))])
    case AddSaves(a, fault) =>
      var add := s.adds[a];
      s.(disk := if fault then s.disk else s.disk[add.uuid := add.phase.data], adds := s.adds[a := add.(phase := Added)])
    case TriggerEnds(r, disable) => s.(runners := s.runners[r := Reporting(disable)])
    case SleepFails(r) => s.(runners := s.runners[r := Dead])
    case Report(r) =>
      s.(core := FinishSpec(s.core, r.0, s.runners[r].disable), runners := s.runners[r := SettingUp])
    case SetUpNext(r) => SetUp(s.(runners := s.runners[r := Ended]), r.0)
    case Disable(u, saveFault) =>
      if !CanDisable(s.core, u) then s
      else
        s.(core := DisableSpec(s.core, u),
           runners := if u in s.core.tasks then s.runners[s.core.tasks[u] := Cancelled] else s.runners,
           disk := if saveFault then s.disk else s.disk[u := false])
    case Restart(bad) =>
      var core := LoadSpec(s.disk, bad, s.core.now);
      s.(core := core, runners := map r | r in core.tasks.Values :: Live, adds := map[])
  }

  predicate Legal(s: System, steps: seq<Step>)
    decreases |steps|
  {
    steps == [] || (Enabled(s, steps[0]) && Legal(Apply(s, steps[0]), steps[1..]))
  }

  function RunAll(s: System, steps: seq<Step>): System
    requires Legal(s, steps)
    decreases |steps|
  {
    if steps == [] then s else RunAll(Apply(s, steps[0]), steps[1..])
  }

  /** The states a run goes through. */
  ghost predicate IsTrace(states: seq<System>, steps: seq<Step>) {
    && |states| == |steps| + 1
    && forall i :: 0 <= i < |steps| ==> Enabled(states[i], steps[i]) && states[i + 1] == Apply(states[i], steps[i])
  }

  lemma {:induction false} TraceIsRun(states: seq<System>, steps: seq<Step>)
    requires IsTrace(states, steps)
    ensures Legal(states[0], steps) && RunAll(states[0], steps) == states[|steps|]
    decreases |steps|
  {
    if steps == [] {
    } else {
      TraceIsRun(states[1..], steps[1..]);
    }
  }

  function Empty(): System {
    System(Core({}, map[], map[], 0), map[], map[], map[], {})
  }

  // --- The invariant ---

  /** A scheduled task is enabled with cron and descriptor, an enabled one has its cron. */
  predicate CoreOk(c: Core) {
    && (forall u :: u in c.tasks ==> u in c.crons && u in c.enabled && c.enabled[u] && c.tasks[u].0 == u && c.tasks[u].1 < c.now)
    && (forall u :: u in c.enabled && c.enabled[u] ==> u in c.crons)
  }

  predicate MayTrigger(p: RunnerPhase) {
    p.Live? || p.Reporting?
  }

  ghost predicate RunnersOk(s: System) {
    && (forall u :: u in s.core.tasks ==> s.core.tasks[u] in s.runners && (MayTrigger(s.runners[s.core.tasks[u]]) || s.runners[s.core.tasks[u]].Dead?))
    && (forall r :: r in s.runners && MayTrigger(s.runners[r]) ==> r.0 in s.core.tasks && s.core.tasks[r.0] == r)
    && (forall r :: r in s.runners ==> r.1 < s.core.now)
  }

  ghost predicate KnownOk(s: System) {
    && s.core.enabled.Keys <= s.used && s.disk.Keys <= s.used
    && (forall a :: a in s.adds ==> s.adds[a].uuid in s.core.enabled)
  }

  ghost predicate Inv(s: System) {
    CoreOk(s.core) && RunnersOk(s) && KnownOk(s)
  }

  lemma RestartKeepsRunnersOk(s: System, bad: set<Uuid>)
    ensures RunnersOk(Apply(s, Restart(bad)))
  {
    var s' := Apply(s, Restart(bad));
    forall u | u in s'.core.tasks
      ensures s'.core.tasks[u] in s'.runners
    {
      assert s'.core.tasks[u] in s'.core.tasks.Values;
    }
  }

  lemma SetUpKeepsRunnersOk(s: System, u: Uuid)
    requires CoreOk(s.core) && RunnersOk(s)
    ensures RunnersOk(SetUp(s, u))
  {
    assert (u, s.core.now) !in s.runners;
  }

  lemma ReportKeepsRunnersOk(s: System, r: RunnerId)
    requires CoreOk(s.core) && RunnersOk(s) && Enabled(s, Report(r))
    ensures RunnersOk(Apply(s, Report(r)))
  {
  }

  lemma DisableKeepsRunnersOk(s: System, u: Uuid, saveFault: bool)
    requires CoreOk(s.core) && RunnersOk(s)
    ensures RunnersOk(Apply(s, Disable(u, saveFault)))
  {
  }

  lemma StepKeepsRunnersOk(s: System, step: Step)
    requires CoreOk(s.core) && RunnersOk(s) && Enabled(s, step)
    ensures RunnersOk(Apply(s, step))
  {
    match step
    case AddSetsUp(a) => SetUpKeepsRunnersOk(s, s.adds[a].uuid);
    case SetUpNext(r) => SetUpKeepsRunnersOk(s.(runners := s.runners[r := Ended]), r.0);
    case Report(r) => ReportKeepsRunnersOk(s, r);
    case Disable(u, saveFault) => DisableKeepsRunnersOk(s, u, saveFault);
    case Restart(bad) => RestartKeepsRunnersOk(s, bad);
    case _ =>
  }

  lemma StepKeepsKnownOk(s: System, step: Step)
    requires KnownOk(s) && Enabled(s, step)
    requires CoreOk(s.core)
    ensures KnownOk(Apply(s, step))
  {
  }

  lemma StepKeepsInv(s: System, step: Step)
    requires Inv(s) && Enabled(s, step)
    ensures Inv(Apply(s, step))
  {
    StepKeepsRunnersOk(s, step);
    StepKeepsKnownOk(s, step);
  }

  lemma {:induction false} EveryInterleavingKeepsInv(s: System, steps: seq<Step>)
    requires Inv(s) && Legal(s, steps)
    ensures Inv(RunAll(s, steps))
    decreases |steps|
  {
    if steps == [] {
    } else {
      StepKeepsInv(s, steps[0]);
      EveryInterleavingKeepsInv(Apply(s, steps[0]), steps[1..]);
    }
  }

  // --- An enabled task keeps running ---

  /** Scheduled, or about to be: a runner of it is setting up the next run, or the call that added it the first. */
  ghost predicate Due(s: System, u: Uuid) {
    || u in s.core.tasks
    || (exists r :: r in s.runners && r.0 == u && s.runners[r].SettingUp?)
    || (exists a :: a in s.adds && s.adds[a] == Add(u, ToSetUp))
  }

  ghost predicate EnabledAreDue(s: System) {
    forall u :: u in s.core.enabled && s.core.enabled[u] ==> Due(s, u)
  }

  lemma SetUpSchedules(s: System, u: Uuid)
    requires Inv(s) && u in s.core.enabled && s.core.enabled[u]
    ensures u in SetUp(s, u).core.tasks
  {
  }

  /** The task is enabled before and after the step. */
  predicate StaysEnabled(s: System, step: Step, u: Uuid)
    requires Enabled(s, step)
  {
    && u in s.core.enabled && s.core.enabled[u]
    && u in Apply(s, step).core.enabled && Apply(s, step).core.enabled[u]
  }

  lemma ScheduledStaysDue(s: System, step: Step, u: Uuid)
    requires Inv(s) && Enabled(s, step) && !step.Restart? && StaysEnabled(s, step, u) && u in s.core.tasks
    ensures Due(Apply(s, step), u)
  {
    if step.Report? && step.runner.0 == u {
      assert Apply(s, step).runners[step.runner].SettingUp?;
    }
  }

  lemma SettingUpStaysDue(s: System, step: Step, u: Uuid, r: RunnerId)
    requires Inv(s) && Enabled(s, step) && !step.Restart? && StaysEnabled(s, step, u)
    requires r in s.runners && r.0 == u && s.runners[r].SettingUp?
    ensures Due(Apply(s, step), u)
  {
    if step == SetUpNext(r) {
      SetUpSchedules(s.(runners := s.runners[r := Ended]), u);
    } else {
      assert r in Apply(s, step).runners && Apply(s, step).runners[r].SettingUp?;
    }
  }

  lemma AddedStaysDue(s: System, step: Step, u: Uuid, a: nat)
    requires Inv(s) && Enabled(s, step) && !step.Restart? && StaysEnabled(s, step, u)
    requires a in s.adds && s.adds[a] == Add(u, ToSetUp)
    ensures Due(Apply(s, step), u)
  {
    if step == AddSetsUp(a) {
      SetUpSchedules(s, u);
    } else {
      assert a in Apply(s, step).adds && Apply(s, step).adds[a] == Add(u, ToSetUp);
    }
  }

  lemma StepKeepsDue(s: System, step: Step, u: Uuid)
    requires Inv(s) && Enabled(s, step) && !step.Restart? && StaysEnabled(s, step, u) && Due(s, u)
    ensures Due(Apply(s, step), u)
  {
    if u in s.core.tasks {
      ScheduledStaysDue(s, step, u);
    } else if r :| r in s.runners && r.0 == u && s.runners[r].SettingUp? {
      SettingUpStaysDue(s, step, u, r);
    } else {
      var a :| a in s.adds && s.adds[a] == Add(u, ToSetUp);
      AddedStaysDue(s, step, u, a);
    }
  }

  lemma StepKeepsEnabledDue(s: System, step: Step)
    requires Inv(s) && EnabledAreDue(s) && Enabled(s, step)
    ensures EnabledAreDue(Apply(s, step))
  {
    var s' := Apply(s, step);
    forall u | u in s'.core.enabled && s'.core.enabled[u]
      ensures Due(s', u)
    {
      if step.Restart? {
        assert u in s'.core.tasks;
      } else if u in s.core.enabled && s.core.enabled[u] {
        StepKeepsDue(s, step, u);
      } else {
        assert step.AddTask? && s'.adds[step.call] == Add(u, ToSetUp);
      }
    }
  }

  lemma {:induction false} EnabledStayDue(s: System, steps: seq<Step>)
    requires Inv(s) && EnabledAreDue(s) && Legal(s, steps)
    ensures Inv(RunAll(s, steps)) && EnabledAreDue(RunAll(s, steps))
    decreases |steps|
  {
    if steps == [] {
    } else {
      StepKeepsInv(s, steps[0]);
      StepKeepsEnabledDue(s, steps[0]);
      EnabledStayDue(Apply(s, steps[0]), steps[1..]);
    }
  }

  /** In every run, faults and restarts included, an enabled task is scheduled or about to be: none is forgotten. */
  lemma EnabledIsNeverForgotten(steps: seq<Step>, u: Uuid)
    requires Legal(Empty(), steps)
    ensures var s := RunAll(Empty(), steps); u in s.core.enabled && s.core.enabled[u] ==> Due(s, u)
  {
    EnabledStayDue(Empty(), steps);
  }

  /** A runner that triggered its task leads, if nothing comes in between, to a new runner of the same task, ready to trigger. */
  lemma NextRunFollows(s: System, r: RunnerId)
    requires Inv(s) && r in s.runners && s.runners[r].Live?
    ensures var steps := [TriggerEnds(r, false), Report(r), SetUpNext(r)];
      && Legal(s, steps)
      && var end := RunAll(s, steps);
      && r.0 in end.core.tasks && end.core.tasks[r.0] != r
      && end.core.tasks[r.0] in end.runners && end.runners[end.core.tasks[r.0]].Live?
      && end.core.enabled == s.core.enabled && end.core.crons == s.core.crons
  {
    var steps := [TriggerEnds(r, false), Report(r), SetUpNext(r)];
    var s1 := Apply(s, steps[0]);
    var s2 := Apply(s1, steps[1]);
    assert r.0 in s.core.tasks && r.1 < s.core.now;
    assert CanSetUp(s2.core, r.0);
    TraceIsRun([s, s1, s2, Apply(s2, steps[2])], steps);
  }

  /** A restart knows exactly the saved tasks whose cron parses, as they were saved, and schedules the enabled ones. */
  lemma RestartKnowsTheSaved(s: System, bad: set<Uuid>, u: Uuid)
    ensures var c := Apply(s, Restart(bad)).core;
      && (u in c.enabled <==> u in s.disk && u !in bad) && (u in c.crons <==> u in c.enabled)
      && (u in c.enabled ==> c.enabled[u] == s.disk[u])
      && (u in c.tasks <==> u in c.enabled && c.enabled[u])
  {
  }

  /** Two runners of one task that can both still trigger are the same runner. */
  lemma OneRunnerPerTask(steps: seq<Step>, r: RunnerId, q: RunnerId)
    requires Legal(Empty(), steps)
    requires var s := RunAll(Empty(), steps);
      r in s.runners && q in s.runners && MayTrigger(s.runners[r]) && MayTrigger(s.runners[q]) && r.0 == q.0
    ensures r == q
  {
    EveryInterleavingKeepsInv(Empty(), steps);
  }

  /** A runner that reports finds its own entry, so the deletion never meets a missing key. */
  lemma ReportFindsItsEntry(s: System, r: RunnerId)
    requires Inv(s) && Enabled(s, Report(r))
    ensures r.0 in s.core.tasks && s.core.tasks[r.0] == r
  {
  }

  // --- Disabled for good ---

  /** The save of an `add_build_task` that took its data while the task was still enabled. */
  predicate StaleSave(s: System, u: Uuid) {
    exists a :: a in s.adds && s.adds[a] == Add(u, Saving(true))
  }

  /** Off in memory, not saved as enabled, and no pending save will make it so. */
  ghost predicate Off(s: System, u: Uuid) {
    && u in s.used && u !in s.core.tasks
    && (u in s.core.enabled ==> !s.core.enabled[u])
    && (u in s.disk ==> !s.disk[u])
    && !StaleSave(s, u)
  }

  lemma StepKeepsOff(s: System, step: Step, u: Uuid)
    requires Inv(s) && Off(s, u) && Enabled(s, step)
    ensures Off(Apply(s, step), u)
  {
    var s' := Apply(s, step);
    if step.AddSnapshots? || step.AddSaves? || step.AddTask? || step.AddSetsUp? {
      forall a | a in s'.adds
        ensures s'.adds[a] != Add(u, Saving(true))
      {
        assert a in s.adds ==> s.adds[a] != Add(u, Saving(true));
      }
    }
  }

  lemma {:induction false} OffForever(s: System, steps: seq<Step>, u: Uuid)
    requires Inv(s) && Off(s, u) && Legal(s, steps)
    ensures Off(RunAll(s, steps), u)
    decreases |steps|
  {
    if steps == [] {
    } else {
      StepKeepsOff(s, steps[0], u);
      StepKeepsInv(s, steps[0]);
      OffForever(Apply(s, steps[0]), steps[1..], u);
    }
  }

  /** What `disable` on an enabled task leaves: no cron, no scheduled run, the flag down, its runner cancelled; every other task as it was. */
  lemma DisableClears(s: System, u: Uuid, saveFault: bool, v: Uuid)
    requires Inv(s) && CanDisable(s.core, u) && v != u
    ensures var c, s' := Apply(s, Disable(u, saveFault)).core, Apply(s, Disable(u, saveFault));
      && u !in c.crons && u !in c.tasks && u in c.enabled && !c.enabled[u]
      && (u in s.core.tasks ==> s'.runners[s.core.tasks[u]].Cancelled?)
      && (v in c.crons <==> v in s.core.crons) && (v in c.tasks <==> v in s.core.tasks)
      && (v in c.enabled <==> v in s.core.enabled) && (v in c.enabled ==> c.enabled[v] == s.core.enabled[v])
  {
  }

  /** A saved enabled flag brings the task back at the next restart; so does a pending stale save, once written. */
  lemma RestartRevives(s: System, u: Uuid)
    requires u in s.disk && s.disk[u]
    ensures Legal(s, [Restart({})]) && u in RunAll(s, [Restart({})]).core.tasks
  {
    var after := Apply(s, Restart({}));
    assert [Restart({})][1..] == [];
    assert Legal(after, []) && RunAll(after, []) == after;
  }

  lemma StaleSaveRevives(s: System, u: Uuid, a: nat)
    requires a in s.adds && s.adds[a] == Add(u, Saving(true))
    ensures var steps := [AddSaves(a, false), Restart({})];
      Legal(s, steps) && u in RunAll(s, steps).core.tasks
  {
    assert [AddSaves(a, false), Restart({})][1..] == [Restart({})];
    RestartRevives(Apply(s, AddSaves(a, false)), u);
  }

  ghost predicate NeverScheduledAgain(s: System, u: Uuid) {
    forall steps :: Legal(s, steps) ==> u !in RunAll(s, steps).core.tasks
  }

  /**
   A task that is off in memory is never scheduled again, in this process or after any restart,
   if and only if it is not saved as enabled and no save from before it went off is pending.
   */
  lemma OffIsExact(s: System, u: Uuid)
    requires Inv(s) && u in s.core.enabled && !s.core.enabled[u]
    ensures NeverScheduledAgain(s, u) <==> !(u in s.disk && s.disk[u]) && !StaleSave(s, u)
  {
    if u in s.disk && s.disk[u] {
      RestartRevives(s, u);
    } else if a :| a in s.adds && s.adds[a] == Add(u, Saving(true)) {
      StaleSaveRevives(s, u, a);
    } else {
      forall steps | Legal(s, steps)
        ensures u !in RunAll(s, steps).core.tasks
      {
        OffForever(s, steps, u);
      }
    }
  }

  /** After `disable` on an enabled task: final iff no save was pending, and its own save worked or nothing enabled was saved. */
  lemma DisableIsFinal(s: System, u: Uuid, saveFault: bool)
    requires Inv(s) && CanDisable(s.core, u)
    ensures NeverScheduledAgain(Apply(s, Disable(u, saveFault)), u)
      <==> !StaleSave(s, u) && !(saveFault && u in s.disk && s.disk[u])
  {
    StepKeepsInv(s, Disable(u, saveFault));
    OffIsExact(Apply(s, Disable(u, saveFault)), u);
  }

  /** After a runner asked to disable its task: nothing is saved, so final iff the task was never saved as enabled. */
  lemma AutoDisableIsFinal(s: System, r: RunnerId)
    requires Inv(s) && r in s.runners && s.runners[r] == Reporting(true)
    ensures NeverScheduledAgain(Apply(s, Report(r)), r.0)
      <==> !StaleSave(s, r.0) && !(r.0 in s.disk && s.disk[r.0])
  {
    StepKeepsInv(s, Report(r));
    OffIsExact(Apply(s, Report(r)), r.0);
  }

  /** From an empty service: a task disabled, with success, while the call that added it has its save pending. */
  function DisabledBeforeSaved(u: Uuid): seq<Step> {
    [AddTask(0, u), AddSetsUp(0), AddSnapshots(0), Disable(u, false), AddSaves(0, false), Restart({})]
  }

  lemma DisabledTaskReturns(u: Uuid)
    ensures var steps := DisabledBeforeSaved(u);
      && Legal(Empty(), steps) && Legal(Empty(), steps[..4])
      && u in RunAll(Empty(), steps[..4]).core.enabled && !RunAll(Empty(), steps[..4]).core.enabled[u]
      && u in RunAll(Empty(), steps).core.tasks
  {
    var steps := DisabledBeforeSaved(u);
    var s1 := Apply(Empty(), steps[0]);
    var s2 := Apply(s1, steps[1]);
    var s3 := Apply(s2, steps[2]);
    var s4 := Apply(s3, steps[3]);
    var s5 := Apply(s4, steps[4]);
    var states := [Empty(), s1, s2, s3, s4, s5, Apply(s5, steps[5])];
    TraceIsRun(states, steps);
    TraceIsRun(states[..5], steps[..4]);
  }

  /** From an empty service: a saved task that its own runner has disabled. */
  function DisabledByRunner(u: Uuid): seq<Step> {
    [AddTask(0, u), AddSetsUp(0), AddSnapshots(0), AddSaves(0, false), TriggerEnds((u, 0), true), Report((u, 0)), Restart({})]
  }

  lemma AutoDisabledTaskReturns(u: Uuid)
    ensures var steps := DisabledByRunner(u);
      && Legal(Empty(), steps) && Legal(Empty(), steps[..6])
      && u in RunAll(Empty(), steps[..6]).core.enabled && !RunAll(Empty(), steps[..6]).core.enabled[u]
      && u in RunAll(Empty(), steps).core.tasks
  {
    var steps := DisabledByRunner(u);
    var s1 := Apply(Empty(), steps[0]);
    var s2 := Apply(s1, steps[1]);
    var s3 := Apply(s2, steps[2]);
    var s4 := Apply(s3, steps[3]);
    var s5 := Apply(s4, steps[4]);
    var s6 := Apply(s5, steps[5]);
    var states := [Empty(), s1, s2, s3, s4, s5, s6, Apply(s6, steps[6])];
    TraceIsRun(states, steps);
    TraceIsRun(states[..7], steps[..6]);
  }

  predicate NoRestart(steps: seq<Step>) {
    forall i :: 0 <= i < |steps| ==> !steps[i].Restart?
  }

  /** Within one process the disable holds unconditionally: a disabled task has no cron any more. */
  lemma {:induction false} DisableHoldsUntilRestart(s: System, steps: seq<Step>, u: Uuid)
    requires Inv(s) && Legal(s, steps) && NoRestart(steps)
    requires u in s.used && u !in s.core.crons
    ensures u !in RunAll(s, steps).core.tasks && u !in RunAll(s, steps).core.crons
    decreases |steps|
  {
    if steps == [] {
    } else {
      StepKeepsInv(s, steps[0]);
      DisableHoldsUntilRestart(Apply(s, steps[0]), steps[1..], u);
    }
  }

  /** So after `disable` on an enabled task, saved or not, no run of it is scheduled before a restart. */
  lemma DisabledUntilRestart(s: System, u: Uuid, saveFault: bool, steps: seq<Step>)
    requires Inv(s) && CanDisable(s.core, u)
    requires Legal(Apply(s, Disable(u, saveFault)), steps) && NoRestart(steps)
    ensures u !in RunAll(Apply(s, Disable(u, saveFault)), steps).core.tasks
  {
    StepKeepsInv(s, Disable(u, saveFault));
    DisableHoldsUntilRestart(Apply(s, Disable(u, saveFault)), steps, u);
  }

  predicate LeavesAlone(step: Step, u: Uuid) {
    !step.Restart? && !(step.Disable? && step.uuid == u)
  }

  /** After a failed sleep the task stays listed as scheduled with nobody to run it, until it is disabled or the service restarts. */
  lemma {:induction false} FailedSleepWedges(s: System, steps: seq<Step>, u: Uuid)
    requires Inv(s) && Legal(s, steps) && forall i :: 0 <= i < |steps| ==> LeavesAlone(steps[i], u)
    requires u in s.core.tasks && s.core.tasks[u] in s.runners && s.runners[s.core.tasks[u]].Dead?
    ensures var end := RunAll(s, steps);
      u in end.core.tasks && end.core.tasks[u] in end.runners && end.runners[end.core.tasks[u]].Dead?
    decreases |steps|
  {
    if steps == [] {
    } else {
      assert LeavesAlone(steps[0], u);
      StepKeepsInv(s, steps[0]);
      WedgedStep(s, steps[0], u);
      FailedSleepWedges(Apply(s, steps[0]), steps[1..], u);
    }
  }

  lemma WedgedStep(s: System, step: Step, u: Uuid)
    requires Inv(s) && Enabled(s, step) && LeavesAlone(step, u)
    requires u in s.core.tasks && s.core.tasks[u] in s.runners && s.runners[s.core.tasks[u]].Dead?
    ensures var s' := Apply(s, step);
      u in s'.core.tasks && s'.core.tasks[u] == s.core.tasks[u] && s'.core.tasks[u] in s'.runners && s'.runners[s'.core.tasks[u]].Dead?
  {
  }

  // --- The lock-held sections as methods ---

  datatype DisableResult = NoSuchTask | AlreadyDisabled | MissingCron | DisabledAndSaved | SaveFailed

  class PeriodicTracker {
    var crons: set<Uuid>
    var enabled: map<Uuid, bool>
    var tasks: map<Uuid, RunnerId>
    var now: nat
    var disk: map<Uuid, bool>

    ghost function View(): Core
      reads this
    {
      Core(crons, enabled, tasks, now)
    }

    constructor ()
      ensures View() == Core({}, map[], map[], 0) && disk == map[]
    {
      crons, enabled, tasks, now, disk := {}, map[], map[], 0, map[];
    }

    method SetupTask(u: Uuid) returns (created: Option<RunnerId>)
      modifies this
      ensures View() == SetUpSpec(old(View()), u) && disk == old(disk)
      ensures created == if CanSetUp(old(View()), u) then Some((u, old(now))) else None
    {
      if u in tasks {
        return None;
      }
      if u !in crons {
        return None;
      }
      if u !in enabled {
        return None;
      }
      if !enabled[u] {
        return None;
      }
      var runner := (u, now);
      now := now + 1;
      tasks := tasks[u := runner];
      return Some(runner);
    }

    method OnTaskFinished(u: Uuid, disable: bool)
      requires CoreOk(View()) && u in tasks
      modifies this
      ensures CoreOk(View())
      ensures View() == FinishSpec(old(View()), u, disable) && disk == old(disk)
    {
      tasks := tasks - {u};
      if disable && u in enabled {
        enabled := enabled[u := false];
      }
    }

    /** The missing-cron branch is dead; the run cancelled is the scheduled one. */
    method DisableTask(u: Uuid, saveFault: bool) returns (r: DisableResult, cancelled: Option<RunnerId>)
      requires CoreOk(View())
      modifies this
      ensures CoreOk(View())
      ensures r.NoSuchTask? <==> u !in old(enabled)
      ensures r.AlreadyDisabled? <==> u in old(enabled) && !old(enabled)[u]
      ensures r.DisabledAndSaved? || r.SaveFailed? <==> CanDisable(old(View()), u)
      ensures !r.MissingCron?
      ensures View() == if CanDisable(old(View()), u) then DisableSpec(old(View()), u) else old(View())
      ensures disk == if r.DisabledAndSaved? then old(disk)[u := false] else old(disk)
      ensures r.SaveFailed? ==> saveFault
      ensures cancelled == if CanDisable(old(View()), u) && u in old(tasks) then Some(old(tasks)[u]) else None
    {
      cancelled := None;
      if u !in enabled {
        return NoSuchTask, None;
      }
      if !enabled[u] {
        return AlreadyDisabled, None;
      }
      if u !in crons {
        return MissingCron, None;
      }
      crons := crons - {u};
      if u in tasks {
        cancelled := Some(tasks[u]);
        tasks := tasks - {u};
      }
      enabled := enabled[u := false];
      assert tasks == old(tasks) - {u};
      if saveFault {
        return SaveFailed, cancelled;
      }
      disk := disk[u := false];
      return DisabledAndSaved, cancelled;
    }
  }
}

/** The retry loop of one runner: a geometric budget bounds its attempts, and it reports at most once. */
module PeriodicRunner {
  /** One turn of the loop: the sleep raises, or the trigger answers. */
  datatype Attempt = SleepFails | Triggered | TryAgain | DisableRequested | UnexpectedError

  /** The backoff after n retries. */
  function Backoff(start: real, factor: real, n: nat): real {
    if n == 0 then start else Backoff(start, factor, n - 1) * factor
  }

  /** How many turns the budget allows: the first n whose backoff is at or over the maximum. */
  predicate IsBudget(start: real, factor: real, max: real, n: nat) {
    Backoff(start, factor, n) >= max && forall k :: 0 <= k < n ==> Backoff(start, factor, k) < max
  }

  lemma GrowthStep(start: real, factor: real, b: real)
    requires start > 0.0 && factor > 1.0 && b >= start
    ensures b * factor >= b + start * (factor - 1.0)
  {
    var x, more := factor - 1.0, b - start;
    assert more * x >= 0.0;
    assert b * factor == b + start * x + more * x;
  }

  /** A geometric sequence with a factor above one outgrows an arithmetic one. */
  lemma {:induction false} AtLeastLinear(start: real, factor: real, n: nat)
    requires start > 0.0 && factor > 1.0
    ensures Backoff(start, factor, n) >= start + n as real * (start * (factor - 1.0))
  {
    if n == 0 {
    } else {
      AtLeastLinear(start, factor, n - 1);
      var step := start * (factor - 1.0);
      assert step > 0.0 && (n - 1) as real * step >= 0.0;
      GrowthStep(start, factor, Backoff(start, factor, n - 1));
      assert n as real * step == (n - 1) as real * step + step;
    }
  }

  /** Any budget is used up, whatever the factor above one. */
  lemma BudgetRunsOut(start: real, factor: real, max: real) returns (n: nat)
    requires start > 0.0 && factor > 1.0
    ensures forall m: nat :: m >= n ==> Backoff(start, factor, m) >= max
  {
    var step := start * (factor - 1.0);
    assert step > 0.0;
    var need := max / step;
    n := if need <= 0.0 then 0 else need.Floor + 1;
    forall m: nat | m >= n
      ensures Backoff(start, factor, m) >= max
    {
      AtLeastLinear(start, factor, m);
      assert m as real >= need;
      assert (m as real - need) * step >= 0.0;
    }
  }

  /**
   With `tries(i)` what happens in turn i, and `reports` the calls made to the completion
   callback: every turn but the last is a retry; a last turn that is not a retry decides the one
   report, or none if its sleep failed; and a runner that only met retries has used the whole
   budget and reports once, asking to disable.
   */
  method Run(tries: nat -> Attempt, start: real, factor: real, max: real) returns (turns: nat, reports: seq<bool>)
    requires start > 0.0 && factor > 1.0
    ensures forall i :: 0 <= i < turns - 1 ==> tries(i).TryAgain?
    ensures forall n :: IsBudget(start, factor, max, n) ==> turns <= n
    ensures if turns > 0 && !tries(turns - 1).TryAgain?
      then reports == if tries(turns - 1).SleepFails? then [] else [!tries(turns - 1).Triggered?]
      else reports == [true] && IsBudget(start, factor, max, turns)
  {
    ghost var bound := BudgetRunsOut(start, factor, max);
    var backoff := start;
    turns := 0;
    while backoff < max
      invariant backoff == Backoff(start, factor, turns)
      invariant forall i :: 0 <= i < turns ==> tries(i).TryAgain?
      invariant forall k :: 0 <= k < turns ==> Backoff(start, factor, k) < max
      decreases bound - turns
    {
      match tries(turns) {
        case SleepFails => return turns + 1, [];
        case Triggered => return turns + 1, [false];
        case DisableRequested => return turns + 1, [true];
        case UnexpectedError => return turns + 1, [true];
        case TryAgain =>
          backoff := backoff * factor;
          turns := turns + 1;
      }
    }
    return turns, [true];
  }

  /** With the source's constants (30 seconds, ten minutes, factor 1.5) the budget is exactly eight turns. */
  lemma EightTurns(n: nat)
    ensures IsBudget(30.0, 1.5, 600.0, n) <==> n == 8
  {
    assert Backoff(30.0, 1.5, 2) == 67.5;
    assert Backoff(30.0, 1.5, 4) == 151.875;
    assert Backoff(30.0, 1.5, 6) == 341.71875;
    assert Backoff(30.0, 1.5, 7) < 600.0 <= Backoff(30.0, 1.5, 8);
    assert IsBudget(30.0, 1.5, 600.0, 8);
  }
}
