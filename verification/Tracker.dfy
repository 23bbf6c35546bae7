/**
 The builds tracker of `cbsd/cbslib/builds/tracker.py` on top of the database and the log
 collector. Every operation runs under the tracker's lock, so each is one step; its failing
 exits are inputs. A crash inside an operation leaves the file as some failing exit does, so
 it is that exit followed by a restart.
 */
module Tracker {
  import opened Wrappers
  import opened BuildsDb
  import LogHandler

  datatype TrackerState = TrackerState(db: Db, logs: LogHandler.Logs, byTask: map<string, int>, byBuild: map<int, string>)

  /** What scheduling the task answered: an error, or a task id and the state Celery reports (None: not a known state). */
  datatype Celery = NotScheduled | Scheduled(taskId: string, state: Option<EntryState>)

  datatype NewCall = NewCall(
    user: string, now: int, save: SaveFault, logsFault: bool, celery: Celery, updateFault: bool,
    failUpdateFault: bool, failLogs: LogHandler.FinishOutcome, failedAt: int)

  /** What `new` raises; a cleanup that fails itself raises in place of what it cleans up after. */
  datatype NewError = NotStored | LogsNotStarted | NotQueued | UnknownState | NotUpdated | CleanupFailed

  datatype MarkCall = MarkCall(
    taskId: string, state: EntryState, started: Option<int>, finished: Option<int>,
    getFault: bool, updateFault: bool, logs: LogHandler.FinishOutcome, now: int)

  datatype MarkResult = Ignored | Marked | MarkFailed

  datatype RevokeCall = RevokeCall(build: int, user: string, force: bool, getFault: bool, celeryFault: bool)

  datatype RevokeResult =
    | RevokeSent | NotTracked | Unreadable | Unauthorized | RevokeFailed
    | MissingTask | MissingTaskId | NotScheduledYet

  function FreshEntry(user: string, now: int): Entry {
    Entry(None, user, now, EntryState.New, None, None)
  }

  /** Cleanup: store the entry as failed and, only if that worked, stop its log collection; the flag says whether it raised. */
  function FailSpec(t: TrackerState, id: int, entry: Entry, doLogs: bool, call: NewCall): (TrackerState, bool) {
    match UpdateSpec(t.db, id, entry.(state := Failure, finished := Some(call.failedAt)), call.failUpdateFault)
    case Err(_) => (t, true)
    case Ok(db) =>
      if !doLogs then (t.(db := db), false)
      else
        var (logs, raised) := LogHandler.FinishSpec(t.logs, id, call.failLogs, call.failedAt);
        (t.(db := db, logs := logs), raised)
  }

  function Cleaned(failed: (TrackerState, bool), error: NewError): (TrackerState, Result<(int, EntryState), NewError>) {
    (failed.0, Err(if failed.1 then CleanupFailed else error))
  }

  function NewBuildSpec(t: TrackerState, call: NewCall): (TrackerState, Result<(int, EntryState), NewError>) {
    var entry := FreshEntry(call.user, call.now);
    var (db, stored) := NewSpec(t.db, entry, call.save);
    var t1 := t.(db := db);
    if stored.None? then (t1, Err(NotStored))
    else
      var id := stored.value;
      match LogHandler.StartSpec(t.logs, id, call.logsFault)
      case Err(_) => Cleaned(FailSpec(t1, id, entry, false, call), LogsNotStarted)
      case Ok(logs) =>
        var t2 := t1.(logs := logs);
        match call.celery
        case NotScheduled => Cleaned(FailSpec(t2, id, entry, true, call), NotQueued)
        case Scheduled(_, None) => (t2, Err(UnknownState))
        case Scheduled(taskId, Some(state)) =>
          var queued := entry.(taskId := Some(taskId), state := state);
          match UpdateSpec(t2.db, id, queued, call.updateFault)
          case Err(_) => Cleaned(FailSpec(t2, id, queued, true, call), NotUpdated)
          case Ok(db2) =>
            (TrackerState(db2, logs, t.byTask[taskId := id], t.byBuild[id := taskId]), Ok((id, state)))
  }

  function MarkedEntry(entry: Entry, call: MarkCall): Entry {
    entry.(
      state := call.state,
      started := if call.started.Some? then call.started else entry.started,
      finished := if call.finished.Some? then call.finished else entry.finished)
  }

  function MarkSpec(t: TrackerState, call: MarkCall): (TrackerState, MarkResult) {
    if call.taskId !in t.byTask then (t, Ignored)
    else
      var id := t.byTask[call.taskId];
      match GetSpec(t.db, id, call.getFault)
      case Err(_) => (t, MarkFailed)
      case Ok(entry) =>
        match UpdateSpec(t.db, id, MarkedEntry(entry, call), call.updateFault)
        case Err(_) => (t, MarkFailed)
        case Ok(db) =>
          if !Terminal(call.state) then (t.(db := db), Marked)
          else
            var (logs, raised) := LogHandler.FinishSpec(t.logs, id, call.logs, call.now);
            (TrackerState(db, logs, t.byTask - {call.taskId}, t.byBuild - {id}), if raised then MarkFailed else Marked)
  }

  // --- The invariant ---

  predicate Inverse(byTask: map<string, int>, byBuild: map<int, string>) {
    && (forall k :: k in byTask ==> byTask[k] in byBuild && byBuild[byTask[k]] == k)
    && (forall b :: b in byBuild ==> byBuild[b] in byTask && byTask[byBuild[b]] == b)
  }

  /** A tracked build is persistent, readable, carries its task id, and has its logs collected. */
  predicate TrackedOk(t: TrackerState, b: int) {
    && 1 <= b <= Persisted(t.db.root)
    && b in t.db.records && t.db.records[b].Good?
    && b in t.byBuild && t.byBuild[b] != "" && t.db.records[b].entry.taskId == Some(t.byBuild[b])
    && b in t.logs.tasks
  }

  predicate DiskOk(records: map<int, Record>, root: Option<int>) {
    && 0 <= Persisted(root)
    && forall x :: x in records && records[x].Good? && Terminal(records[x].entry.state) ==> 1 <= x <= Persisted(root)
  }

  predicate Consistent(t: TrackerState) {
    && DiskOk(t.db.records, t.db.root) && Persisted(t.db.root) <= t.db.last
    && Inverse(t.byTask, t.byBuild)
    && (forall b :: b in t.byBuild ==> TrackedOk(t, b))
    && (forall b :: b in t.logs.tasks ==> 1 <= b <= Persisted(t.db.root))
  }

  /** Celery's promise: task ids are non-empty and not one still in use. */
  predicate FreshTask(t: TrackerState, celery: Celery) {
    celery.Scheduled? ==> celery.taskId != "" && celery.taskId !in t.byTask
  }

  /** Everything a step may touch besides the records of one build. */
  ghost predicate RecordsKept(before: Db, after: Db, except: int) {
    forall x :: x != except ==> KeptAt(before, after, x)
  }

  predicate KeptAt(before: Db, after: Db, x: int) {
    if x in before.records then x in after.records && after.records[x] == before.records[x]
    else x !in after.records
  }

  /** The failing cleanup touches only the record of its own build and its own log task. */
  lemma FailTouchesOnlyItsBuild(t: TrackerState, id: int, entry: Entry, doLogs: bool, call: NewCall)
    ensures var after := FailSpec(t, id, entry, doLogs, call).0;
      && RecordsKept(t.db, after.db, id) && after.db.last == t.db.last && after.db.root == t.db.root
      && after.byTask == t.byTask && after.byBuild == t.byBuild
      && t.logs.tasks - {id} <= after.logs.tasks <= t.logs.tasks
  {
  }

  /**
   Every exit of `new`: only the record of the next id can change; the root is left alone or
   names that id; a terminal record is written only once the id is persistent; and tracking
   either stays as it was or gains exactly the new pair.
   */
  lemma NewBuildFrame(t: TrackerState, call: NewCall)
    requires Consistent(t)
    ensures var (after, r) := NewBuildSpec(t, call);
      var id := t.db.last + 1;
      && after.db.last == id && RecordsKept(t.db, after.db, id)
      && (after.db.root == t.db.root || after.db.root == Some(id))
      && (after.db.root == t.db.root ==>
            KeptAt(t.db, after.db, id)
            || (id in after.db.records && after.db.records[id] == Good(FreshEntry(call.user, call.now))))
      && t.logs.tasks - {id} <= after.logs.tasks <= t.logs.tasks + {id}
      && (id in after.logs.tasks ==> after.db.root == Some(id))
      && (r.Err? ==> after.byTask == t.byTask && after.byBuild == t.byBuild)
  {
    var entry := FreshEntry(call.user, call.now);
    var (db, stored) := NewSpec(t.db, entry, call.save);
    var id := t.db.last + 1;
    var t1 := t.(db := db);
    if stored.Some? {
      FailTouchesOnlyItsBuild(t1, id, entry, false, call);
      match LogHandler.StartSpec(t.logs, id, call.logsFault)
      case Err(_) =>
      case Ok(logs) =>
        FailTouchesOnlyItsBuild(t1.(logs := logs), id, entry, true, call);
        if call.celery.Scheduled? && call.celery.state.Some? {
          FailTouchesOnlyItsBuild(t1.(logs := logs), id, entry.(taskId := Some(call.celery.taskId), state := call.celery.state.value), true, call);
        }
    }
  }

  lemma NewBuildOutcome(t: TrackerState, call: NewCall)
    requires Consistent(t)
    ensures var (after, r) := NewBuildSpec(t, call);
      r.Ok? ==>
        var id := t.db.last + 1;
        && call.celery.Scheduled? && call.celery.state.Some? && r.value == (id, call.celery.state.value)
        && after.db.root == Some(id) && id in after.logs.tasks
        && after.db.records == t.db.records[id := Good(FreshEntry(call.user, call.now).(taskId := Some(call.celery.taskId), state := call.celery.state.value))]
        && after.byTask == t.byTask[call.celery.taskId := id] && after.byBuild == t.byBuild[id := call.celery.taskId]
  {
    var (after, r) := NewBuildSpec(t, call);
    if r.Ok? {
      var id := t.db.last + 1;
      assert after.db.records == t.db.records[id := after.db.records[id]];
    }
  }

  /** A new build that succeeds is stored under the next id with its user, its time, its task and the state reported, tracked both ways, and logged. */
  lemma NewBuildStores(t: TrackerState, call: NewCall)
    requires Consistent(t) && NewBuildSpec(t, call).1.Ok?
    ensures var (after, r) := NewBuildSpec(t, call);
      var id := t.db.last + 1;
      && call.celery.Scheduled? && id in after.db.records && after.db.records[id].Good?
      && var entry := after.db.records[id].entry;
      && r.value == (id, entry.state)
      && entry.user == call.user && entry.submitted == call.now && entry.started.None? && entry.finished.None?
      && entry.taskId == Some(call.celery.taskId) && Some(entry.state) == call.celery.state
      && id in after.byBuild && after.byBuild[id] == call.celery.taskId
      && call.celery.taskId in after.byTask && after.byTask[call.celery.taskId] == id
      && id in after.logs.tasks && Persisted(after.db.root) == id
  {
    NewBuildOutcome(t, call);
  }

  /** A step that at most writes the record of the next id and moves the root to it keeps file and old builds in order. */
  lemma NextIdKeepsOld(t: TrackerState, after: TrackerState, id: int)
    requires Consistent(t) && id == t.db.last + 1 == after.db.last && RecordsKept(t.db, after.db, id)
    requires after.db.root == t.db.root || after.db.root == Some(id)
    requires after.db.root == t.db.root ==>
      KeptAt(t.db, after.db, id) || (id in after.db.records && after.db.records[id].Good? && !Terminal(after.db.records[id].entry.state))
    requires t.logs.tasks - {id} <= after.logs.tasks && forall b :: b in t.byBuild ==> b in after.byBuild && after.byBuild[b] == t.byBuild[b]
    ensures DiskOk(after.db.records, after.db.root) && Persisted(after.db.root) <= after.db.last
    ensures forall b :: b in t.byBuild ==> b != id && TrackedOk(after, b)
  {
    forall b | b in t.byBuild
      ensures b != id && TrackedOk(after, b)
    {
      assert TrackedOk(t, b) && KeptAt(t.db, after.db, b);
    }
    forall x | x in after.db.records && after.db.records[x].Good? && Terminal(after.db.records[x].entry.state)
      ensures 1 <= x <= Persisted(after.db.root)
    {
      if x != id { assert KeptAt(t.db, after.db, x); }
    }
  }

  lemma NewBuildKeepsConsistent(t: TrackerState, call: NewCall)
    requires Consistent(t) && FreshTask(t, call.celery)
    ensures Consistent(NewBuildSpec(t, call).0)
  {
    var (after, r) := NewBuildSpec(t, call);
    var id := t.db.last + 1;
    NewBuildFrame(t, call);
    NewBuildOutcome(t, call);
    forall b | b in t.byBuild
      ensures b < id
    {
      assert TrackedOk(t, b);
    }
    NextIdKeepsOld(t, after, id);
  }

  lemma MarkKeepsConsistent(t: TrackerState, call: MarkCall)
    requires Consistent(t)
    ensures Consistent(MarkSpec(t, call).0)
  {
    var (after, r) := MarkSpec(t, call);
    if call.taskId in t.byTask {
      var id := t.byTask[call.taskId];
      assert TrackedOk(t, id);
      forall b | b in after.byBuild
        ensures TrackedOk(after, b)
      {
        assert TrackedOk(t, b);
      }
    }
  }

  /**
   What a mark that is stored leaves in the record: the state it was given, each time as given or
   else as it was, and everything else unchanged. No other record changes. A terminal mark
   untracks the build and, unless cancelling fails, ends its log collection.
   */
  lemma MarkStores(t: TrackerState, call: MarkCall)
    requires Consistent(t) && call.taskId in t.byTask && !call.getFault && !call.updateFault
    ensures var (after, r) := MarkSpec(t, call);
      var id := t.byTask[call.taskId];
      && id in t.db.records && t.db.records[id].Good? && id in after.db.records && after.db.records[id].Good?
      && Stamped(t.db.records[id].entry, after.db.records[id].entry, call) && RecordsKept(t.db, after.db, id)
      && (id in after.byBuild <==> !Terminal(call.state)) && (call.taskId in after.byTask <==> !Terminal(call.state))
      && (id in after.logs.tasks <==> !Terminal(call.state) || call.logs == LogHandler.CancelFailed)
      && (r == MarkFailed <==> Terminal(call.state) && call.logs == LogHandler.MarkerFailed) && r != Ignored
  {
    assert TrackedOk(t, t.byTask[call.taskId]);
  }

  predicate Stamped(was: Entry, now: Entry, call: MarkCall) {
    && now.state == call.state && now.taskId == was.taskId && now.user == was.user && now.submitted == was.submitted
    && now.started == (if call.started.None? then was.started else call.started)
    && now.finished == (if call.finished.None? then was.finished else call.finished)
  }

  /** A mark that is not stored changes nothing. */
  lemma FailedMarkChangesNothing(t: TrackerState, call: MarkCall)
    requires call.taskId !in t.byTask || call.getFault || call.updateFault
    requires Consistent(t)
    ensures MarkSpec(t, call).0 == t && MarkSpec(t, call).1 == if call.taskId in t.byTask then MarkFailed else Ignored
  {
    if call.taskId in t.byTask {
      assert TrackedOk(t, t.byTask[call.taskId]);
    }
  }

  /**
   A build that could not be set up, with the cleanup done, is recorded as failed at the time of
   the failure, is not tracked, and its logs are no longer collected unless cancelling failed.
   */
  lemma SetupFailureIsRecorded(t: TrackerState, call: NewCall)
    requires Consistent(t) && NewBuildSpec(t, call).1.Err?
    requires var e := NewBuildSpec(t, call).1.error; e == LogsNotStarted || e == NotQueued || e == NotUpdated
    ensures var after, id := NewBuildSpec(t, call).0, t.db.last + 1;
      && id in after.db.records && after.db.records[id].Good?
      && var entry := after.db.records[id].entry;
      && entry.state == Failure && entry.finished == Some(call.failedAt) && entry.user == call.user && entry.submitted == call.now
      && id !in after.byBuild && (id in after.logs.tasks ==> call.failLogs == LogHandler.CancelFailed)
  {
    var id := t.db.last + 1;
    forall b | b in t.byBuild
      ensures b != id
    {
      assert TrackedOk(t, b);
    }
  }

  /** The new state, and the times that were given; other times stay. */
  method Restamp(entry: Entry, call: MarkCall) returns (marked: Entry)
    ensures marked == MarkedEntry(entry, call)
  {
    marked := entry.(state := call.state);
    if call.started.Some? {
      marked := marked.(started := call.started);
    }
    if call.finished.Some? {
      marked := marked.(finished := call.finished);
    }
  }

  // --- The tracker as an object ---

  class BuildsTracker {
    const db: BuildsDB
    const logs: LogHandler.Handler
    var byTask: map<string, int>
    var byBuild: map<int, string>

    ghost function View(): TrackerState
      reads this, db, logs
    {
      TrackerState(db.View(), logs.View(), byTask, byBuild)
    }

    ghost predicate Valid()
      reads this, db, logs
    {
      Consistent(View())
    }

    constructor (db: BuildsDB, logs: LogHandler.Handler)
      requires DiskOk(db.records, db.root) && Persisted(db.root) <= db.last && logs.tasks == {}
      ensures this.db == db && this.logs == logs && Valid() && byTask == map[] && byBuild == map[]
    {
      this.db, this.logs := db, logs;
      byTask, byBuild := map[], map[];
    }

    method FailEntry(id: int, entry: Entry, doLogs: bool, call: NewCall) returns (raised: bool)
      modifies this, db, logs
      ensures (View(), raised) == FailSpec(old(View()), id, entry, doLogs, call)
    {
      var failed := entry.(state := Failure, finished := Some(call.failedAt));
      var error := db.Update(id, failed, call.failUpdateFault);
      if error.Some? {
        return true;
      }
      raised := false;
      if doLogs {
        raised := logs.Finish(id, call.failLogs, call.failedAt);
      }
    }

    method NewBuild(call: NewCall) returns (r: Result<(int, EntryState), NewError>)
      requires Valid() && FreshTask(View(), call.celery)
      modifies this, db, logs
      ensures Valid()
      ensures (View(), r) == NewBuildSpec(old(View()), call)
    {
      NewBuildKeepsConsistent(View(), call);
      var entry := FreshEntry(call.user, call.now);
      var stored := db.Create(entry, call.save);
      if stored.None? {
        return Err(NotStored);
      }
      var id := stored.value;
      var started := logs.Start(id, call.logsFault);
      if !started {
        var raised := FailEntry(id, entry, false, call);
        return Err(if raised then CleanupFailed else LogsNotStarted);
      }
      match call.celery
      case NotScheduled =>
        var raised := FailEntry(id, entry, true, call);
        return Err(if raised then CleanupFailed else NotQueued);
      case Scheduled(_, None) =>
        return Err(UnknownState);
      case Scheduled(taskId, Some(state)) =>
        var queued := entry.(taskId := Some(taskId), state := state);
        var error := db.Update(id, queued, call.updateFault);
        if error.Some? {
          var raised := FailEntry(id, queued, true, call);
          return Err(if raised then CleanupFailed else NotUpdated);
        }
        byTask := byTask[taskId := id];
        byBuild := byBuild[id := taskId];
        return Ok((id, state));
    }

    /** The id looked up is never the falsy 0, and neither deletion meets a missing key. */
    method MarkTaskState(call: MarkCall) returns (r: MarkResult)
      requires Valid()
      modifies this, db, logs
      ensures Valid()
      ensures (View(), r) == MarkSpec(old(View()), call)
    {
      MarkKeepsConsistent(View(), call);
      var id := if call.taskId in byTask then byTask[call.taskId] else 0;
      assert call.taskId in byTask ==> TrackedOk(View(), id);
      if id == 0 {
        return Ignored;
      }
      var got := db.Get(id, call.getFault);
      if got.Err? {
        return MarkFailed;
      }
      var entry := Restamp(got.value, call);
      var error := db.Update(id, entry, call.updateFault);
      if error.Some? {
        return MarkFailed;
      }
      if Terminal(entry.state) {
        assert call.taskId in byTask && id in byBuild;
        byTask := byTask - {call.taskId};
        byBuild := byBuild - {id};
        var raised := logs.Finish(id, call.logs, call.now);
        if raised {
          return MarkFailed;
        }
      }
      return Marked;
    }

    /**
     Revoking sends a signal and changes nothing here. Of the seven ways the source can refuse,
     a missing task, a missing task id and a build not yet scheduled cannot occur: a build is
     unknown exactly when it is not tracked.
     */
    method Revoke(call: RevokeCall) returns (r: RevokeResult)
      requires Valid()
      ensures r.NotTracked? <==> call.build !in byBuild
      ensures r.Unreadable? <==> call.build in byBuild && call.getFault
      ensures r.Unauthorized? <==>
        call.build in byBuild && !call.getFault && !call.force && db.records[call.build].entry.user != call.user
      ensures r.RevokeSent? || r.NotTracked? || r.Unreadable? || r.Unauthorized? || (r.RevokeFailed? && call.celeryFault)
      ensures r.RevokeSent? ==> !call.celeryFault
    {
      if call.build !in byBuild {
        return NotTracked;
      }
      assert TrackedOk(View(), call.build);
      var taskId := byBuild[call.build];
      if taskId !in byTask {
        return MissingTask;
      }
      var got := db.Get(call.build, call.getFault);
      if got.Err? {
        return Unreadable;
      }
      var entry := got.value;
      if !call.force && call.user != entry.user {
        return Unauthorized;
      }
      if entry.taskId.None? || entry.taskId == Some("") {
        if entry.state != EntryState.New {
          return MissingTaskId;
        }
        return NotScheduledYet;
      }
      if call.celeryFault {
        return RevokeFailed;
      }
      return RevokeSent;
    }
  }
}

/** Whole runs of the build service: requests, task events, restarts and startup collection, in any order. */
module BuildRuns {
  import opened Wrappers
  import opened BuildsDb
  import opened Tracker
  import LogHandler

  /** The tracker, the ids `new` of the database ever returned, and whether the service is still starting up. */
  datatype World = World(t: TrackerState, returned: set<int>, booting: bool)

  datatype Event = Create(build: NewCall) | Mark(mark: MarkCall) | Restart | StartupGc(failsAt: Option<int>)

  /** Collection happens during startup only, before any request is served. */
  predicate Enabled(w: World, e: Event) {
    match e
    case Create(call) => FreshTask(w.t, call.celery)
    case Mark(_) => true
    case Restart => true
    case StartupGc(failsAt) => w.booting && (failsAt.Some? ==> 1 <= failsAt.value <= w.t.db.last)
  }

  function Apply(w: World, e: Event): World {
    match e
    case Create(call) =>
      var id := w.t.db.last + 1;
      World(NewBuildSpec(w.t, call).0, if call.save == NoFault then w.returned + {id} else w.returned, false)
    case Mark(call) => w.(t := MarkSpec(w.t, call).0)
    case Restart =>
      World(TrackerState(Load(w.t.db.records, w.t.db.root), LogHandler.Logs({}, []), map[], map[]), w.returned, true)
    case StartupGc(failsAt) =>
      var n := if failsAt.Some? then failsAt.value - 1 else w.t.db.last;
      w.(t := w.t.(db := w.t.db.(records := CollectUpTo(w.t.db.records, n))))
  }

  predicate Legal(w: World, events: seq<Event>)
    decreases |events|
  {
    events == [] || (Enabled(w, events[0]) && Legal(Apply(w, events[0]), events[1..]))
  }

  function RunAll(w: World, events: seq<Event>): World
    requires Legal(w, events)
    decreases |events|
  {
    if events == [] then w else RunAll(Apply(w, events[0]), events[1..])
  }

  predicate Inv(w: World) {
    && Consistent(w.t)
    && (forall id :: id in w.returned ==> 1 <= id <= Persisted(w.t.db.root) && id in w.t.db.records)
    && (w.booting ==> w.t.byTask == map[] && w.t.byBuild == map[] && w.t.db.last == Persisted(w.t.db.root))
  }

  /** The service on its first start: no file yet. */
  function FirstStart(): World {
    World(TrackerState(Load(map[], None), LogHandler.Logs({}, []), map[], map[]), {}, true)
  }

  lemma CreateKeepsInv(w: World, call: NewCall)
    requires Inv(w) && Enabled(w, Create(call))
    ensures Inv(Apply(w, Create(call)))
  {
    NewBuildKeepsConsistent(w.t, call);
    NewBuildFrame(w.t, call);
    var after, id := NewBuildSpec(w.t, call).0, w.t.db.last + 1;
    assert call.save == NoFault ==> after.db.root == Some(id) && id in after.db.records;
    forall x | x in w.returned
      ensures x in after.db.records
    {
      assert KeptAt(w.t.db, after.db, x);
    }
  }

  lemma StepKeepsInv(w: World, e: Event)
    requires Inv(w) && Enabled(w, e)
    ensures Inv(Apply(w, e))
  {
    match e
    case Create(call) => CreateKeepsInv(w, call);
    case Mark(call) => MarkKeepsConsistent(w.t, call);
    case Restart =>
    case StartupGc(_) =>
  }

  /** In every run, whatever fails: maps inverse with ids in range, tracked builds persistent and logged, returned ids persistent. */
  lemma {:induction false} EveryRunKeepsInv(w: World, events: seq<Event>)
    requires Inv(w) && Legal(w, events)
    ensures Inv(RunAll(w, events))
    decreases |events|
  {
    if events == [] {
    } else {
      StepKeepsInv(w, events[0]);
      EveryRunKeepsInv(Apply(w, events[0]), events[1..]);
    }
  }

  lemma EveryRunFromFirstStart(events: seq<Event>)
    requires Legal(FirstStart(), events)
    ensures Inv(RunAll(FirstStart(), events))
  {
    EveryRunKeepsInv(FirstStart(), events);
  }

  // --- Finished builds stay as they are ---

  predicate Settled(w: World, x: int) {
    x in w.t.db.records && w.t.db.records[x].Good? && Terminal(w.t.db.records[x].entry.state) && x !in w.t.byBuild
  }

  lemma StepKeepsSettled(w: World, e: Event, x: int)
    requires Inv(w) && Enabled(w, e) && Settled(w, x)
    ensures Settled(Apply(w, e), x) && Apply(w, e).t.db.records[x] == w.t.db.records[x]
  {
    match e
    case Create(call) =>
      NewBuildFrame(w.t, call);
      NewBuildOutcome(w.t, call);
    case Mark(call) =>
      if call.taskId in w.t.byTask { assert TrackedOk(w.t, w.t.byTask[call.taskId]); }
    case Restart =>
    case StartupGc(_) =>
  }

  /** Once terminal and untracked, a stored entry never changes again. */
  lemma {:induction false} SettledForever(w: World, events: seq<Event>, x: int)
    requires Inv(w) && Legal(w, events) && Settled(w, x)
    ensures Settled(RunAll(w, events), x) && RunAll(w, events).t.db.records[x] == w.t.db.records[x]
    decreases |events|
  {
    if events == [] {
    } else {
      StepKeepsSettled(w, events[0], x);
      StepKeepsInv(w, events[0]);
      SettledForever(Apply(w, events[0]), events[1..], x);
    }
  }

  /** A terminal mark that is stored settles its build in the state it was given. */
  lemma TerminalMarkSettles(w: World, call: MarkCall)
    requires Inv(w) && call.taskId in w.t.byTask && !call.getFault && !call.updateFault && Terminal(call.state)
    ensures var w', id := Apply(w, Mark(call)), w.t.byTask[call.taskId];
      Settled(w', id) && w'.t.db.records[id].entry.state == call.state
  {
    MarkStores(w.t, call);
  }

  /** The first terminal mark that is stored is the recorded outcome in every later run. */
  lemma FirstOutcomeStands(w: World, call: MarkCall, events: seq<Event>)
    requires Inv(w) && call.taskId in w.t.byTask && !call.getFault && !call.updateFault && Terminal(call.state)
    requires Legal(Apply(w, Mark(call)), events)
    ensures var end, id := RunAll(Apply(w, Mark(call)), events).t.db, w.t.byTask[call.taskId];
      id in end.records && end.records[id].Good? && end.records[id].entry.state == call.state
  {
    TerminalMarkSettles(w, call);
    StepKeepsInv(w, Mark(call));
    SettledForever(Apply(w, Mark(call)), events, w.t.byTask[call.taskId]);
  }

  // --- Build ids are issued once ---

  lemma {:induction false} ReturnedGrows(w: World, events: seq<Event>)
    requires Legal(w, events)
    ensures w.returned <= RunAll(w, events).returned
    decreases |events|
  {
    if events == [] {
    } else {
      ReturnedGrows(Apply(w, events[0]), events[1..]);
    }
  }

  /**
   Across write failures, crashes between the two writes and reloads, a later `new` neither
   returns an id returned before nor writes over its record.
   */
  lemma IdsAreNeverReissued(w: World, events: seq<Event>, call: NewCall, issued: int)
    requires Inv(w) && Legal(w, events) && issued in w.returned
    ensures var later := RunAll(w, events).t;
      && later.db.last + 1 > issued
      && issued in later.db.records && issued in NewBuildSpec(later, call).0.db.records
      && NewBuildSpec(later, call).0.db.records[issued] == later.db.records[issued]
  {
    EveryRunKeepsInv(w, events);
    ReturnedGrows(w, events);
    NewBuildFrame(RunAll(w, events).t, call);
  }

  /** After a restart and a complete collection no unfinished build is left among the readable ones. */
  lemma RestartSettlesEverything(w: World)
    requires Inv(w)
    ensures var up := Apply(Apply(w, Restart), StartupGc(None));
      forall x :: x in up.t.db.records && 1 <= x <= up.t.db.last && up.t.db.records[x].Good? ==> Settled(up, x)
  {
    CollectIsComplete(Apply(w, Restart).t.db);
  }
}
