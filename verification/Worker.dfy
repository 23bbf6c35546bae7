/**
 The worker's bookkeeping in Redis (`cbsd/cbslib/worker/worker.py`): `start_build` and
 `finish_build` as steps of concurrent calls. A transaction pipeline is one step; the
 membership test, the read, the container stop and the commit of a finish are separate
 steps, with anything else in between. Calls that never take another step model crashes.
 */
module WorkerProtocol {
  import opened Wrappers

  /** STARTED, or FINISHED with the REVOKED or the ERROR flag or neither. */
  datatype BuildState = Started | Finished(revoked: bool, error: bool)

  datatype Task = Task(worker: string, id: string, state: BuildState, build: int, run: string)

  /** The worker task sets, the task keys and the build keys. */
  datatype Redis = Redis(members: set<(string, string)>, tasks: map<string, Task>, builds: map<int, Task>)

  function StartSpec(r: Redis, worker: string, task: string, build: int, run: string): Redis {
    var t := Task(worker, task, Started, build, run);
    Redis(r.members + {(worker, task)}, r.tasks[task := t], r.builds[build := t])
  }

  function Outcome(revoke: bool, error: bool): BuildState {
    Finished(revoke, error && !revoke)
  }

  /** The closing pipeline: delete the task key, leave the set, and store the outcome under the build read before. */
  function CommitSpec(r: Redis, worker: string, task: string, read: Task, revoke: bool, error: bool): Redis {
    Redis(
      r.members - {(worker, task)}, r.tasks - {task},
      r.builds[read.build := read.(state := Outcome(revoke, error))])
  }

  /** How far a `finish_build` call has come; `read` is the task record it holds. */
  datatype Phase = Asking | Reading | Holding(read: Task) | Stopped(read: Task) | Over

  datatype Call = Call(worker: string, task: string, revoke: bool, error: bool, phase: Phase, stopReturned: Option<Task>)

  /** Which worker and which build each task ever started with. */
  datatype Assignment = Assignment(worker: string, build: int)

  datatype System = System(redis: Redis, calls: map<nat, Call>, plan: map<string, Assignment>)

  datatype Step =
    | Start(worker: string, task: string, build: int, run: string)
    | Begin(call: nat, worker: string, task: string, revoke: bool, error: bool)
    | Ask(call: nat, fault: bool)
    | Read(call: nat, fault: bool)
    | Stop(call: nat, fault: bool)
    | Commit(call: nat, fault: bool)

  /** Celery's side: a task runs one build, a build belongs to one task; a task may be delivered again, to the same worker. */
  predicate MayStart(s: System, worker: string, task: string, build: int) {
    if task in s.plan then s.plan[task] == Assignment(worker, build)
    else forall t :: t in s.plan ==> s.plan[t].build != build
  }

  predicate Enabled(s: System, step: Step) {
    match step
    case Start(worker, task, build, _) => MayStart(s, worker, task, build)
    case Begin(c, _, _, _, _) => c !in s.calls
    case Ask(c, _) => c in s.calls && s.calls[c].phase.Asking?
    case Read(c, _) => c in s.calls && s.calls[c].phase.Reading?
    case Stop(c, _) => c in s.calls && s.calls[c].phase.Holding? && s.calls[c].revoke
    case Commit(c, _) =>
      c in s.calls && (s.calls[c].phase.Stopped? || (s.calls[c].phase.Holding? && !s.calls[c].revoke))
  }

  function Move(s: System, c: nat, phase: Phase): System
    requires c in s.calls
  {
    s.(calls := s.calls[c := s.calls[c].(phase := phase)])
  }

  function Apply(s: System, step: Step): System
    requires Enabled(s, step)
  {
    match step
    case Start(worker, task, build, run) =>
      s.(redis := StartSpec(s.redis, worker, task, build, run), plan := s.plan[task := Assignment(worker, build)])
    case Begin(c, worker, task, revoke, error) =>
      s.(calls := s.calls[c := Call(worker, task, revoke, error, Asking, None)])
    case Ask(c, fault) =>
      var call := s.calls[c];
      Move(s, c, if !fault && (call.worker, call.task) in s.redis.members then Reading else Over)
    case Read(c, fault) =>
      var call := s.calls[c];
      if fault || call.task !in s.redis.tasks then Move(s, c, Over)
      else
        var read := s.redis.tasks[call.task];
        Move(s, c, if read.worker == call.worker then Holding(read) else Over)
    case Stop(c, fault) =>
      if fault then Move(s, c, Over)
      else
        var read := s.calls[c].phase.read;
        s.(calls := s.calls[c := s.calls[c].(phase := Stopped(read), stopReturned := Some(read))])
    case Commit(c, fault) =>
      var call := s.calls[c];
      var over := Move(s, c, Over);
      if fault then over
      else over.(redis := CommitSpec(s.redis, call.worker, call.task, call.phase.read, call.revoke, call.error))
  }

  predicate Legal(s: System, steps: seq<Step>)
    decreases |steps|
  {
    steps == [] || (Enabled(s, steps[0]) && Legal(Apply(s, steps[0]), steps[1..]))
  }

  function RunAll(s: System, steps: seq<Step>): System
    requires Legal(s, steps)
    decreases |steps|
  {
    if steps == [] then s else RunAll(Apply(s, steps[0]), steps[1..])
  }

  /** The states a run goes through. */
  ghost predicate IsTrace(states: seq<System>, steps: seq<Step>) {
    && |states| == |steps| + 1
    && forall i :: 0 <= i < |steps| ==> Enabled(states[i], steps[i]) && states[i + 1] == Apply(states[i], steps[i])
  }

  lemma {:induction false} TraceIsRun(states: seq<System>, steps: seq<Step>)
    requires IsTrace(states, steps)
    ensures Legal(states[0], steps) && RunAll(states[0], steps) == states[|steps|]
    decreases |steps|
  {
    if steps == [] {
    } else {
      TraceIsRun(states[1..], steps[1..]);
    }
  }

  function Empty(): System {
    System(Redis({}, map[], map[]), map[], map[])
  }

  // --- The invariant ---

  type Plan = map<string, Assignment>

  /** The record of a task is about that task, its worker and its build. */
  predicate About(plan: Plan, task: string, t: Task) {
    task in plan && t.id == task && t.worker == plan[task].worker && t.build == plan[task].build
  }

  /** In its worker's set iff its task key exists iff its build record says STARTED. */
  predicate InStep(r: Redis, plan: Plan, task: string)
    requires task in plan
  {
    var Assignment(worker, build) := plan[task];
    && ((worker, task) in r.members <==> task in r.tasks)
    && build in r.builds && About(plan, task, r.builds[build])
    && (r.builds[build].state.Started? <==> task in r.tasks)
    && (task in r.tasks ==> About(plan, task, r.tasks[task]) && r.tasks[task].state.Started?)
  }

  ghost predicate RedisOk(r: Redis, plan: Plan) {
    && (forall m :: m in r.members ==> m.1 in plan && plan[m.1].worker == m.0)
    && (forall t :: t in r.tasks ==> t in plan)
    && (forall b :: b in r.builds ==> About(plan, r.builds[b].id, r.builds[b]) && r.builds[b].build == b)
    && (forall t, u :: t in plan && u in plan && plan[t].build == plan[u].build ==> t == u)
    && (forall t :: t in plan ==> InStep(r, plan, t))
  }

  /** The stop of a revoking call that read this very record returned. */
  ghost predicate StopReturnedFor(calls: map<nat, Call>, t: Task) {
    exists c :: c in calls && calls[c].revoke && calls[c].stopReturned == Some(t.(state := Started))
  }

  /** A REVOKED record was committed by a revoking call whose container stop had returned. */
  ghost predicate StopsCameFirst(builds: map<int, Task>, calls: map<nat, Call>) {
    forall b :: b in builds && builds[b].state.Finished? && builds[b].state.revoked ==> StopReturnedFor(calls, builds[b])
  }

  predicate CallOk(plan: Plan, call: Call) {
    && (call.phase.Reading? ==> call.task in plan && plan[call.task].worker == call.worker)
    && (call.phase.Holding? || call.phase.Stopped? ==>
          About(plan, call.task, call.phase.read) && call.phase.read.worker == call.worker && call.phase.read.state.Started?)
    && (call.phase.Stopped? ==> call.revoke && call.stopReturned == Some(call.phase.read))
    && (call.stopReturned.Some? ==> call.phase.Stopped? || call.phase.Over?)
  }

  ghost predicate Inv(s: System) {
    && RedisOk(s.redis, s.plan)
    && (forall c :: c in s.calls ==> CallOk(s.plan, s.calls[c]))
    && StopsCameFirst(s.redis.builds, s.calls)
  }

  /** The task started is in step, whatever Redis held before. */
  lemma StartedIsInStep(r: Redis, plan: Plan, worker: string, task: string, build: int, run: string)
    ensures InStep(StartSpec(r, worker, task, build, run), plan[task := Assignment(worker, build)], task)
  {
  }

  lemma OthersStayInStep(s: System, worker: string, task: string, build: int, run: string, t: string)
    requires t in s.plan && t != task && InStep(s.redis, s.plan, t) && s.plan[t].build != build
    ensures InStep(StartSpec(s.redis, worker, task, build, run), s.plan[task := Assignment(worker, build)], t)
  {
  }

  lemma StartKeepsInStep(s: System, worker: string, task: string, build: int, run: string)
    requires RedisOk(s.redis, s.plan) && MayStart(s, worker, task, build)
    ensures var plan := s.plan[task := Assignment(worker, build)];
      forall t :: t in plan ==> InStep(StartSpec(s.redis, worker, task, build, run), plan, t)
  {
    var plan := s.plan[task := Assignment(worker, build)];
    forall t | t in plan
      ensures InStep(StartSpec(s.redis, worker, task, build, run), plan, t)
    {
      if t == task {
        StartedIsInStep(s.redis, s.plan, worker, task, build, run);
      } else {
        assert InStep(s.redis, s.plan, t);
        OthersStayInStep(s, worker, task, build, run, t);
      }
    }
  }

  lemma StartKeepsRedisOk(s: System, worker: string, task: string, build: int, run: string)
    requires RedisOk(s.redis, s.plan) && MayStart(s, worker, task, build)
    ensures RedisOk(StartSpec(s.redis, worker, task, build, run), s.plan[task := Assignment(worker, build)])
  {
    StartKeepsInStep(s, worker, task, build, run);
  }

  lemma CommitKeepsRedisOk(r: Redis, plan: Plan, worker: string, task: string, read: Task, revoke: bool, error: bool)
    requires RedisOk(r, plan) && About(plan, task, read) && read.worker == worker
    ensures RedisOk(CommitSpec(r, worker, task, read, revoke, error), plan)
  {
    var r' := CommitSpec(r, worker, task, read, revoke, error);
    forall t | t in plan
      ensures InStep(r', plan, t)
    {
      assert InStep(r, plan, t);
    }
  }

  lemma CommitKeepsStopsFirst(s: System, c: nat)
    requires Inv(s) && Enabled(s, Commit(c, false))
    ensures var s' := Apply(s, Commit(c, false)); StopsCameFirst(s'.redis.builds, s'.calls)
  {
    var s', call := Apply(s, Commit(c, false)), s.calls[c];
    var read := call.phase.read;
    assert CallOk(s.plan, call);
    forall b | b in s'.redis.builds && s'.redis.builds[b].state.Finished? && s'.redis.builds[b].state.revoked
      ensures StopReturnedFor(s'.calls, s'.redis.builds[b])
    {
      if b != read.build {
        StopStaysReturned(s.calls, s'.calls, s.redis.builds[b]);
      } else {
        assert s'.redis.builds[b].(state := Started) == read;
        assert s'.calls[c].stopReturned == Some(read);
      }
    }
  }

  lemma StopStaysReturned(calls: map<nat, Call>, calls': map<nat, Call>, t: Task)
    requires StopReturnedFor(calls, t)
    requires forall d :: d in calls && calls[d].stopReturned.Some? ==>
      d in calls' && calls'[d].revoke == calls[d].revoke && calls'[d].stopReturned == calls[d].stopReturned
    ensures StopReturnedFor(calls', t)
  {
    var c :| c in calls && calls[c].revoke && calls[c].stopReturned == Some(t.(state := Started));
    assert c in calls';
  }

  /** A step of one call that leaves Redis alone. */
  lemma CallStepKeepsInv(s: System, s': System, c: nat)
    requires Inv(s) && s'.redis == s.redis && s'.plan == s.plan
    requires s'.calls.Keys == s.calls.Keys + {c} && forall d :: d in s.calls && d != c ==> s'.calls[d] == s.calls[d]
    requires CallOk(s.plan, s'.calls[c])
    requires c in s.calls && s.calls[c].stopReturned.Some? ==>
      s'.calls[c].revoke == s.calls[c].revoke && s'.calls[c].stopReturned == s.calls[c].stopReturned
    ensures Inv(s')
  {
    forall b | b in s.redis.builds && s.redis.builds[b].state.Finished? && s.redis.builds[b].state.revoked
      ensures StopReturnedFor(s'.calls, s.redis.builds[b])
    {
      StopStaysReturned(s.calls, s'.calls, s.redis.builds[b]);
    }
  }

  /** However the calls interleave, a read never meets a task of another worker: that branch of the source is dead. */
  lemma ReadIsOurs(s: System, c: nat)
    requires Inv(s) && c in s.calls && s.calls[c].phase.Reading? && s.calls[c].task in s.redis.tasks
    ensures s.redis.tasks[s.calls[c].task].worker == s.calls[c].worker
  {
    assert CallOk(s.plan, s.calls[c]);
    assert InStep(s.redis, s.plan, s.calls[c].task);
  }

  lemma StepKeepsInv(s: System, step: Step)
    requires Inv(s) && Enabled(s, step)
    ensures Inv(Apply(s, step))
  {
    match step
    case Start(worker, task, build, run) =>
      StartKeepsRedisOk(s, worker, task, build, run);
      StartKeepsCalls(s, worker, task, build);
    case Commit(c, false) =>
      var call := s.calls[c];
      assert CallOk(s.plan, call);
      CommitKeepsRedisOk(s.redis, s.plan, call.worker, call.task, call.phase.read, call.revoke, call.error);
      CommitKeepsStopsFirst(s, c);
    case Begin(c, _, _, _, _) => CallStepKeepsInv(s, Apply(s, step), c);
    case Ask(c, _) => CallStepKeepsInv(s, Apply(s, step), c);
    case Read(c, _) =>
      if s.calls[c].task in s.redis.tasks { assert InStep(s.redis, s.plan, s.calls[c].task); }
      CallStepKeepsInv(s, Apply(s, step), c);
    case Stop(c, _) => CallStepKeepsInv(s, Apply(s, step), c);
    case Commit(c, true) => CallStepKeepsInv(s, Apply(s, step), c);
  }

  /** An assignment, once made, is not changed by a later start, so the records calls hold stay about their task. */
  lemma StartKeepsCalls(s: System, worker: string, task: string, build: int)
    requires Inv(s) && MayStart(s, worker, task, build)
    ensures var plan := s.plan[task := Assignment(worker, build)];
      forall c :: c in s.calls ==> CallOk(plan, s.calls[c])
  {
    forall c | c in s.calls
      ensures CallOk(s.plan[task := Assignment(worker, build)], s.calls[c])
    {
      assert CallOk(s.plan, s.calls[c]);
    }
  }

  /** Every interleaving of any number of starts, finishes and revoking finishes, on any number of workers. */
  lemma {:induction false} EveryInterleavingKeepsInv(s: System, steps: seq<Step>)
    requires Inv(s) && Legal(s, steps)
    ensures Inv(RunAll(s, steps))
    decreases |steps|
  {
    if steps == [] {
    } else {
      StepKeepsInv(s, steps[0]);
      EveryInterleavingKeepsInv(Apply(s, steps[0]), steps[1..]);
    }
  }

  lemma FromAnEmptyServer(steps: seq<Step>)
    requires Legal(Empty(), steps)
    ensures Inv(RunAll(Empty(), steps))
  {
    EveryInterleavingKeepsInv(Empty(), steps);
  }

  // --- What happens to a finished record ---

  /**
   What a finish records: the build is finished, revoked if the call revokes, in error if the
   call says so and does not revoke, and otherwise the task as it was read. Nothing else changes
   among the builds, and the task is no longer known.
   */
  lemma CommitRecords(s: System, c: nat)
    requires Enabled(s, Commit(c, false))
    ensures var call, r := s.calls[c], Apply(s, Commit(c, false)).redis;
      var b := call.phase.read.build;
      && b in r.builds && r.builds[b].state.Finished?
      && r.builds[b].state.revoked == call.revoke && r.builds[b].state.error == (call.error && !call.revoke)
      && r.builds[b].(state := call.phase.read.state) == call.phase.read
      && r.builds - {b} == s.redis.builds - {b}
      && call.task !in r.tasks && (call.worker, call.task) !in r.members
  {
    var r, b := Apply(s, Commit(c, false)).redis, s.calls[c].phase.read.build;
    assert forall x :: x in r.builds && x != b ==> r.builds[x] == s.redis.builds[x];
  }

  /** From an empty server: a build that ends in error is recorded so. */
  function FailingFinish(worker: string, task: string, build: int, run: string): seq<Step> {
    [Start(worker, task, build, run), Begin(0, worker, task, false, true), Ask(0, false), Read(0, false), Commit(0, false)]
  }

  lemma ErrorIsRecorded(worker: string, task: string, build: int, run: string)
    ensures var steps := FailingFinish(worker, task, build, run);
      Legal(Empty(), steps) && IsOver(RunAll(Empty(), steps), task, Task(worker, task, Finished(false, true), build, run))
  {
    var steps := FailingFinish(worker, task, build, run);
    var s1 := Apply(Empty(), steps[0]);
    var s2 := Apply(s1, steps[1]);
    var s3 := Apply(s2, steps[2]);
    var s4 := Apply(s3, steps[3]);
    TraceIsRun([Empty(), s1, s2, s3, s4, Apply(s4, steps[4])], steps);
  }

  /** Only a start makes a finished record STARTED again. */
  lemma OnlyAStartRestarts(s: System, step: Step, b: int)
    requires Inv(s) && Enabled(s, step)
    requires b in s.redis.builds && s.redis.builds[b].state.Finished?
    requires b in Apply(s, step).redis.builds && Apply(s, step).redis.builds[b].state.Started?
    ensures step.Start? && step.build == b
  {
  }

  /** A call that holds the task's record and can still commit it. */
  predicate Holds(call: Call, task: string) {
    call.task == task && (call.phase.Holding? || call.phase.Stopped?)
  }

  /** The record such a call will commit. */
  function WillWrite(call: Call): Task
    requires call.phase.Holding? || call.phase.Stopped?
  {
    call.phase.read.(state := Outcome(call.revoke, call.error))
  }

  predicate NoRestart(steps: seq<Step>, task: string) {
    forall i :: 0 <= i < |steps| ==> !(steps[i].Start? && steps[i].task == task)
  }

  /** Whatever is still to be committed for the task is `record`. */
  ghost predicate HoldersAgree(s: System, task: string, record: Task) {
    forall c :: c in s.calls && Holds(s.calls[c], task) ==> WillWrite(s.calls[c]) == record
  }

  /** A task that is over, with `record` as its outcome. */
  ghost predicate IsOver(s: System, task: string, record: Task) {
    && task in s.plan && task !in s.redis.tasks
    && s.plan[task].build in s.redis.builds && s.redis.builds[s.plan[task].build] == record
  }

  /** With the task key gone no call can get hold of the record anew, and a holder keeps what it will write. */
  lemma HoldersStayAgreed(s: System, step: Step, task: string, record: Task)
    requires Enabled(s, step) && task !in s.redis.tasks && HoldersAgree(s, task, record)
    ensures HoldersAgree(Apply(s, step), task, record)
  {
  }

  lemma CommitKeepsOutcome(s: System, c: nat, task: string, record: Task)
    requires Inv(s) && Enabled(s, Commit(c, false)) && IsOver(s, task, record) && HoldersAgree(s, task, record)
    ensures IsOver(Apply(s, Commit(c, false)), task, record)
  {
    assert CallOk(s.plan, s.calls[c]);
  }

  lemma StepKeepsOutcome(s: System, step: Step, task: string, record: Task)
    requires Inv(s) && Enabled(s, step) && IsOver(s, task, record) && HoldersAgree(s, task, record)
    requires !(step.Start? && step.task == task)
    ensures IsOver(Apply(s, step), task, record)
  {
    match step {
      case Commit(c, false) => CommitKeepsOutcome(s, c, task, record);
      case Start(_, _, _, _) =>
      case _ => assert Apply(s, step).redis == s.redis;
    }
  }

  lemma {:induction false} AgreedOutcomeStays(s: System, steps: seq<Step>, task: string, record: Task)
    requires Inv(s) && Legal(s, steps) && NoRestart(steps, task)
    requires IsOver(s, task, record) && HoldersAgree(s, task, record)
    ensures IsOver(RunAll(s, steps), task, record)
    decreases |steps|
  {
    if steps == [] {
    } else {
      StepKeepsOutcome(s, steps[0], task, record);
      HoldersStayAgreed(s, steps[0], task, record);
      StepKeepsInv(s, steps[0]);
      AgreedOutcomeStays(Apply(s, steps[0]), steps[1..], task, record);
    }
  }

  /** What is left of a finish call that holds the record. */
  function Remaining(c: nat, call: Call): seq<Step> {
    if call.phase.Holding? && call.revoke then [Stop(c, false), Commit(c, false)] else [Commit(c, false)]
  }

  /** A holder can go on to commit, and the outcome is then its own. */
  lemma HolderMayCommit(s: System, c: nat, task: string)
    requires Inv(s) && c in s.calls && Holds(s.calls[c], task)
    ensures var call := s.calls[c];
      var steps := Remaining(c, call);
      && Legal(s, steps) && NoRestart(steps, task) && task in s.plan && RunAll(s, steps).plan == s.plan
      && s.plan[task].build in RunAll(s, steps).redis.builds
      && RunAll(s, steps).redis.builds[s.plan[task].build] == WillWrite(call)
  {
    var call := s.calls[c];
    assert CallOk(s.plan, call);
    if call.phase.Holding? && call.revoke {
      var s1 := Apply(s, Stop(c, false));
      var s2 := Apply(s1, Commit(c, false));
      assert [Stop(c, false), Commit(c, false)][1..] == [Commit(c, false)];
      assert [Commit(c, false)][1..] == [];
      assert Legal(s2, []) && RunAll(s2, []) == s2;
      assert Legal(s1, [Commit(c, false)]) && RunAll(s1, [Commit(c, false)]) == s2;
    } else {
      var s2 := Apply(s, Commit(c, false));
      assert [Commit(c, false)][1..] == [];
      assert Legal(s2, []) && RunAll(s2, []) == s2;
    }
  }

  /** Until the task is started again, every run leaves its outcome as it is. */
  ghost predicate OutcomeStands(s: System, task: string, record: Task) {
    forall steps :: Legal(s, steps) && NoRestart(steps, task) ==> IsOver(RunAll(s, steps), task, record)
  }

  /**
   The outcome of a task that is over stands until the task is started again if and only if
   every finish call that still holds the task's record would write that same outcome.
   */
  lemma OutcomeIsFinal(s: System, task: string, record: Task)
    requires Inv(s) && IsOver(s, task, record)
    ensures OutcomeStands(s, task, record) <==> HoldersAgree(s, task, record)
  {
    if HoldersAgree(s, task, record) {
      forall steps | Legal(s, steps) && NoRestart(steps, task)
        ensures IsOver(RunAll(s, steps), task, record)
      {
        AgreedOutcomeStays(s, steps, task, record);
      }
    } else {
      var c :| c in s.calls && Holds(s.calls[c], task) && WillWrite(s.calls[c]) != record;
      HolderMayCommit(s, c, task);
      assert !IsOver(RunAll(s, Remaining(c, s.calls[c])), task, record);
    }
  }

  /** A normal finish and a revoking one that both read the task before either commits. */
  function RacingFinishes(worker: string, task: string, build: int, run: string): seq<Step> {
    [Start(worker, task, build, run),
     Begin(0, worker, task, false, false), Begin(1, worker, task, true, false),
     Ask(0, false), Ask(1, false), Read(0, false), Read(1, false), Commit(0, false), Stop(1, false), Commit(1, false)]
  }

  lemma RacingStates(worker: string, task: string, build: int, run: string) returns (states: seq<System>)
    ensures |states| == 11 && states[0] == Empty() && IsTrace(states, RacingFinishes(worker, task, build, run))
    ensures IsOver(states[8], task, Task(worker, task, Finished(false, false), build, run))
    ensures IsOver(states[10], task, Task(worker, task, Finished(true, false), build, run))
  {
    var steps := RacingFinishes(worker, task, build, run);
    var s1 := Apply(Empty(), steps[0]);
    var s2 := Apply(s1, steps[1]);
    var s3 := Apply(s2, steps[2]);
    var s4 := Apply(s3, steps[3]);
    var s5 := Apply(s4, steps[4]);
    var s6 := Apply(s5, steps[5]);
    var s7 := Apply(s6, steps[6]);
    var s8 := Apply(s7, steps[7]);
    var s9 := Apply(s8, steps[8]);
    states := [Empty(), s1, s2, s3, s4, s5, s6, s7, s8, s9, Apply(s9, steps[9])];
  }

  /** The outcome can be replaced: the build finished, and is then recorded as revoked. */
  lemma FinishedBecomesRevoked(worker: string, task: string, build: int, run: string)
    ensures var steps := RacingFinishes(worker, task, build, run);
      && Legal(Empty(), steps) && Legal(Empty(), steps[..8])
      && IsOver(RunAll(Empty(), steps[..8]), task, Task(worker, task, Finished(false, false), build, run))
      && IsOver(RunAll(Empty(), steps), task, Task(worker, task, Finished(true, false), build, run))
  {
    var steps := RacingFinishes(worker, task, build, run);
    var states := RacingStates(worker, task, build, run);
    TraceIsRun(states, steps);
    TraceIsRun(states[..9], steps[..8]);
  }

  /** Had a task been started by a second worker, the first one's set would keep it for good: Redis is out of step. */
  lemma SecondWorkerLeavesAStaleMember(task: string, build: int, run: string, a: string, b: string)
    requires a != b
    ensures var twice := StartSpec(StartSpec(Empty().redis, a, task, build, run), b, task, build, run);
      var done := CommitSpec(twice, b, task, twice.tasks[task], false, false);
      (a, task) in done.members && task !in done.tasks
  {
  }

  // --- The calls as methods, without interference ---

  /** The step of a finish that fails: the membership test, the read or parse of the task, the container stop, the pipeline. */
  datatype FinishFault = NoFault | AskFault | ReadFault | StopFault | CommitFault

  class Worker {
    const name: string
    var redis: Redis

    constructor (name: string, redis: Redis)
      ensures this.name == name && this.redis == redis
    {
      this.name, this.redis := name, redis;
    }

    method StartBuild(task: string, build: int, run: string, fault: bool)
      modifies this
      ensures redis == if fault then old(redis) else StartSpec(old(redis), name, task, build, run)
    {
      if fault {
        return;
      }
      var t := Task(name, task, Started, build, run);
      redis := redis.(members := redis.members + {(name, task)});
      redis := redis.(tasks := redis.tasks[task := t]);
      redis := redis.(builds := redis.builds[build := t]);
    }

    /**
     Changes Redis only for a task in this worker's set whose key names this worker, and, when
     revoking, only after the stop. It raises exactly when the step that failed was reached.
     */
    method FinishBuild(task: string, revoke: bool, error: bool, fault: FinishFault) returns (stopped: bool, raised: bool)
      modifies this
      ensures var r := old(redis);
        var member := !fault.AskFault? && (name, task) in r.members;
        var ours := member && !fault.ReadFault? && task in r.tasks && r.tasks[task].worker == name;
        && stopped == (ours && revoke && !fault.StopFault?)
        && raised == (fault.AskFault? || (member && fault.ReadFault?) || (ours && revoke && fault.StopFault?)
                      || (ours && (revoke ==> stopped) && fault.CommitFault?))
        && redis == if ours && (revoke ==> stopped) && !fault.CommitFault?
                    then CommitSpec(r, name, task, r.tasks[task], revoke, error) else r
      ensures redis != old(redis) ==>
        && task in old(redis).tasks
        && var read := old(redis).tasks[task];
        && read.build in redis.builds && redis.builds[read.build].state == Finished(revoke, error && !revoke)
        && redis.builds[read.build].(state := read.state) == read
    {
      stopped, raised := false, false;
      if fault == AskFault {
        return false, true;
      }
      if (name, task) !in redis.members {
        return;
      }
      if fault == ReadFault {
        return false, true;
      }
      if task !in redis.tasks {
        return;
      }
      var t := redis.tasks[task];
      if t.worker != name {
        return;
      }
      t := t.(state := Finished(false, false));
      if revoke {
        t := t.(state := t.state.(revoked := true));
      } else if error {
        t := t.(state := t.state.(error := true));
      }
      if revoke {
        if fault == StopFault {
          return false, true;
        }
        stopped := true;
      }
      if fault == CommitFault {
        return stopped, true;
      }
      redis := Redis(redis.members - {(name, task)}, redis.tasks - {task}, redis.builds[t.build := t]);
    }
  }
}
