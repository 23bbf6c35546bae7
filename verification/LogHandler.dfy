/**
 The log collector of `cbsd/cbslib/builds/logs.py`: which builds have a running logger task,
 which finished builds still keep their messages in Redis, and the garbage collector that
 drops those messages once they are older than a time to live.
 */
module LogHandler {
  import opened Wrappers

  /** The builds that finished at one instant; the source keeps these in an insertion-ordered dictionary. */
  datatype Bucket = Bucket(at: int, builds: seq<int>)

  datatype Logs = Logs(tasks: set<int>, finished: seq<Bucket>)

  /** How cancelling a logger task and writing the end marker went. */
  datatype FinishOutcome = Finished | CancelFailed | MarkerFailed

  /** Start collecting for a build; a build already collected is left alone. */
  function StartSpec(l: Logs, build: int, fault: bool): Result<Logs, ()> {
    if build in l.tasks then Ok(l)
    else if fault then Err(())
    else Ok(l.(tasks := l.tasks + {build}))
  }

  /** Stop collecting; the flag says whether the call raised. A cancel error is swallowed, a file error is not. */
  function FinishSpec(l: Logs, build: int, outcome: FinishOutcome, now: int): (Logs, bool) {
    if build !in l.tasks || outcome == CancelFailed then (l, false)
    else
      var stopped := l.(tasks := l.tasks - {build});
      if outcome == MarkerFailed then (stopped, true)
      else (stopped.(finished := AddFinished(l.finished, build, now)), false)
  }

  /** Dictionary lookup of a finish time. */
  function KeyIndex(buckets: seq<Bucket>, at: int): (i: nat)
    ensures i <= |buckets|
    ensures i < |buckets| ==> buckets[i].at == at
    ensures i == |buckets| <==> forall j :: 0 <= j < |buckets| ==> buckets[j].at != at
  {
    KeyFrom(buckets, at, 0)
  }

  function KeyFrom(buckets: seq<Bucket>, at: int, from: nat): (i: nat)
    requires from <= |buckets|
    ensures from <= i <= |buckets|
    ensures i < |buckets| ==> buckets[i].at == at
    ensures forall j :: from <= j < i ==> buckets[j].at != at
    decreases |buckets| - from
  {
    if from == |buckets| || buckets[from].at == at then from else KeyFrom(buckets, at, from + 1)
  }

  function AddFinished(buckets: seq<Bucket>, build: int, now: int): seq<Bucket> {
    var i := KeyIndex(buckets, now);
    if i < |buckets| then buckets[i := Bucket(now, buckets[i].builds + [build])]
    else buckets + [Bucket(now, [build])]
  }

  function Flatten(buckets: seq<Bucket>): seq<int> {
    if buckets == [] then [] else buckets[0].builds + Flatten(buckets[1..])
  }

  /** Finish-time keys strictly ascend in insertion order. */
  predicate Ascending(buckets: seq<Bucket>) {
    forall i, j :: 0 <= i < j < |buckets| ==> buckets[i].at < buckets[j].at
  }

  predicate NoneAfter(buckets: seq<Bucket>, now: int) {
    forall i :: 0 <= i < |buckets| ==> buckets[i].at <= now
  }

  /** The clock is read once before each bucket is looked at and never goes back. */
  predicate Clock(readings: seq<int>, buckets: nat) {
    && |readings| == buckets
    && forall i, j :: 0 <= i < j < |readings| ==> readings[i] <= readings[j]
  }

  /** How many leading buckets the scan finds expired. */
  function Expired(buckets: seq<Bucket>, readings: seq<int>, ttl: int): (k: nat)
    requires |readings| == |buckets|
    ensures k <= |buckets|
  {
    if buckets == [] || readings[0] - buckets[0].at <= ttl then 0
    else 1 + Expired(buckets[1..], readings[1..], ttl)
  }

  lemma {:induction false} ExpiredScan(buckets: seq<Bucket>, readings: seq<int>, ttl: int)
    requires |readings| == |buckets|
    ensures var k := Expired(buckets, readings, ttl);
      && (forall i :: 0 <= i < k ==> readings[i] - buckets[i].at > ttl)
      && (k < |buckets| ==> readings[k] - buckets[k].at <= ttl)
  {
    if buckets != [] && readings[0] - buckets[0].at > ttl {
      ExpiredScan(buckets[1..], readings[1..], ttl);
    }
  }

  /** Collection starts for a build exactly when the call does not fail, and for no other build. */
  lemma StartMeans(l: Logs, build: int, fault: bool)
    ensures StartSpec(l, build, fault).Err? <==> fault && build !in l.tasks
    ensures StartSpec(l, build, fault).Ok? ==>
      var after := StartSpec(l, build, fault).value;
      build in after.tasks && after.tasks - {build} == l.tasks - {build} && after.finished == l.finished
  {
  }

  /**
   A finish stops the collection of that build and no other, unless cancelling fails; it raises
   iff the end marker fails; and the build is due for collection iff neither failed.
   */
  lemma FinishMeans(l: Logs, build: int, outcome: FinishOutcome, now: int)
    requires Ascending(l.finished) && NoneAfter(l.finished, now) && build in l.tasks
    ensures var (after, raised) := FinishSpec(l, build, outcome, now);
      && (build in after.tasks <==> outcome == CancelFailed) && after.tasks - {build} == l.tasks - {build}
      && (raised <==> outcome == MarkerFailed)
      && (if outcome == Finished then FinishedNow(l.finished, after.finished, build, now) else after.finished == l.finished)
  {
    FinishIsStamped(l.finished, build, now);
  }

  /** The build was added behind all others, under the time given. */
  predicate FinishedNow(was: seq<Bucket>, buckets: seq<Bucket>, build: int, now: int) {
    Flatten(buckets) == Flatten(was) + [build] && buckets != [] && buckets[|buckets| - 1].at == now
  }

  lemma FinishIsStamped(buckets: seq<Bucket>, build: int, now: int)
    requires Ascending(buckets) && NoneAfter(buckets, now)
    ensures FinishedNow(buckets, AddFinished(buckets, build, now), build, now)
  {
    FinishKeepsOrder(buckets, build, now);
    var i := KeyIndex(buckets, now);
    if i < |buckets| {
      EarlierIsBefore(buckets, now, i);
    }
  }

  /** The bucket and the place in it of the build whose trimming raises. */
  datatype TrimFault = TrimFault(bucket: nat, build: nat)

  /** The fault is met by a pass that trims the first k buckets. */
  predicate Raises(buckets: seq<Bucket>, k: nat, fault: Option<TrimFault>)
    requires k <= |buckets|
  {
    fault.Some? && fault.value.bucket < k && fault.value.build < |buckets[fault.value.bucket].builds|
  }

  function TrimmedBefore(buckets: seq<Bucket>, k: nat, fault: Option<TrimFault>): seq<int>
    requires k <= |buckets| && Raises(buckets, k, fault)
  {
    Flatten(buckets[..fault.value.bucket]) + buckets[fault.value.bucket].builds[..fault.value.build]
  }

  class Handler {
    var tasks: set<int>
    var finished: seq<Bucket>

    ghost function View(): Logs
      reads this
    {
      Logs(tasks, finished)
    }

    constructor ()
      ensures View() == Logs({}, [])
    {
      tasks, finished := {}, [];
    }

    method Start(build: int, fault: bool) returns (ok: bool)
      modifies this
      ensures ok == StartSpec(old(View()), build, fault).Ok?
      ensures View() == if ok then StartSpec(old(View()), build, fault).value else old(View())
    {
      if build in tasks {
        return true;
      }
      if fault {
        return false;
      }
      tasks := tasks + {build};
      return true;
    }

    method Finish(build: int, outcome: FinishOutcome, now: int) returns (raised: bool)
      modifies this
      ensures (View(), raised) == FinishSpec(old(View()), build, outcome, now)
    {
      if build !in tasks {
        return false;
      }
      if outcome == CancelFailed {
        return false;
      }
      tasks := tasks - {build};
      if outcome == MarkerFailed {
        return true;
      }
      var i := KeyIndex(finished, now);
      if i == |finished| {
        finished := finished + [Bucket(now, [])];
      }
      finished := finished[i := Bucket(now, finished[i].builds + [build])];
      assert [] + [build] == [build];
      assert finished == AddFinished(old(finished), build, now);
      return false;
    }

    /**
     One garbage collection pass. `readings` are the clock values the pass sees and `fault` the
     build whose trimming raises. A pass that completes removes exactly the leading buckets it
     found expired, trims exactly their builds, and answers with the remaining time of the first
     bucket it kept; a pass that raises removes nothing, and has trimmed the builds before the
     one it failed at.
     */
    method GcFinished(readings: seq<int>, ttl: int, fault: Option<TrimFault>)
      returns (completed: bool, wait: Option<int>, trimmed: seq<int>)
      requires |readings| == |finished|
      modifies this
      ensures tasks == old(tasks)
      ensures var was, k := old(finished), Expired(old(finished), readings, ttl);
        && (completed <==> !Raises(was, k, fault))
        && (completed ==> finished == was[k..] && trimmed == Flatten(was[..k]))
        && (!completed ==> finished == was && trimmed == TrimmedBefore(was, k, fault))
        && (wait == if completed && k < |readings| then Some(ttl - (readings[k] - was[k].at)) else None)
    {
      ghost var buckets := finished;
      ExpiredScan(buckets, readings, ttl);
      wait, trimmed, completed := None, [], true;
      var i := 0;
      while i < |finished|
        invariant 0 <= i <= |finished| && finished == buckets && tasks == old(tasks)
        invariant i <= Expired(buckets, readings, ttl)
        invariant trimmed == Flatten(buckets[..i]) && wait == None
        invariant !Raises(buckets, i, fault)
      {
        ExpiredSoFar(buckets, readings, ttl, i);
        var age := readings[i] - finished[i].at;
        if age <= ttl {
          wait := Some(ttl - age);
          break;
        }
        var stop := if fault.Some? && fault.value.bucket == i then Some(fault.value.build) else None;
        var all, done := TrimBucket(finished[i].builds, stop);
        trimmed := trimmed + done;
        if !all {
          return false, None, trimmed;
        }
        FlattenSnoc(buckets[..i], buckets[i]);
        assert buckets[..i + 1] == buckets[..i] + [buckets[i]];
        i := i + 1;
      }
      finished := finished[i..];
    }
  }

  /** The inner loop over one bucket, up to the build whose trimming raises. */
  method TrimBucket(builds: seq<int>, stop: Option<nat>) returns (all: bool, done: seq<int>)
    ensures all <==> stop.None? || stop.value >= |builds|
    ensures done == if all then builds else builds[..stop.value]
  {
    done := [];
    for j := 0 to |builds|
      invariant done == builds[..j] && (stop.Some? ==> stop.value >= j)
    {
      if stop == Some(j) {
        return false, done;
      }
      done := done + [builds[j]];
    }
    return true, done;
  }

  lemma {:induction false} ExpiredSoFar(buckets: seq<Bucket>, readings: seq<int>, ttl: int, i: nat)
    requires |readings| == |buckets| && i <= Expired(buckets, readings, ttl) && i < |buckets|
    ensures i < Expired(buckets, readings, ttl) <==> readings[i] - buckets[i].at > ttl
  {
    ExpiredScan(buckets, readings, ttl);
  }

  lemma {:induction false} FlattenSnoc(buckets: seq<Bucket>, b: Bucket)
    ensures Flatten(buckets + [b]) == Flatten(buckets) + b.builds
  {
    if buckets == [] {
      assert ([] + [b])[1..] == [];
    } else {
      assert (buckets + [b])[1..] == buckets[1..] + [b];
      FlattenSnoc(buckets[1..], b);
    }
  }

  lemma {:induction false} FlattenConcat(a: seq<Bucket>, b: seq<Bucket>)
    ensures Flatten(a + b) == Flatten(a) + Flatten(b)
  {
    if a == [] {
      assert a + b == b;
    } else {
      assert (a + b)[1..] == a[1..] + b;
      FlattenConcat(a[1..], b);
    }
  }

  lemma LastBucket(buckets: seq<Bucket>, b: Bucket)
    requires buckets != []
    ensures var n := |buckets| - 1;
      buckets == buckets[..n] + [buckets[n]] && buckets[n := b] == buckets[..n] + [b]
  {
  }

  /** A finish time already present can only be the newest key. */
  lemma KeyIsLast(buckets: seq<Bucket>, build: int, now: int)
    requires Ascending(buckets) && NoneAfter(buckets, now)
    ensures var i := KeyIndex(buckets, now);
      i < |buckets| ==>
        && buckets == buckets[..i] + [buckets[i]]
        && AddFinished(buckets, build, now) == buckets[..i] + [Bucket(buckets[i].at, buckets[i].builds + [build])]
  {
    var i := KeyIndex(buckets, now);
    if i < |buckets| {
      EarlierIsBefore(buckets, now, i);
      LastBucket(buckets, Bucket(now, buckets[i].builds + [build]));
    }
  }

  lemma EarlierIsBefore(buckets: seq<Bucket>, now: int, i: nat)
    requires Ascending(buckets) && NoneAfter(buckets, now) && i < |buckets|
    ensures i < |buckets| - 1 ==> buckets[i].at < now
  {
    if i < |buckets| - 1 {
      assert buckets[i].at < buckets[|buckets| - 1].at;
    }
  }

  lemma FinishKeepsAscending(buckets: seq<Bucket>, build: int, now: int)
    requires Ascending(buckets) && NoneAfter(buckets, now)
    ensures Ascending(AddFinished(buckets, build, now)) && NoneAfter(AddFinished(buckets, build, now), now)
  {
  }

  /** With a clock that never goes back, a finish keeps the keys ascending and appends to what has finished. */
  lemma FinishKeepsOrder(buckets: seq<Bucket>, build: int, now: int)
    requires Ascending(buckets) && NoneAfter(buckets, now)
    ensures Ascending(AddFinished(buckets, build, now)) && NoneAfter(AddFinished(buckets, build, now), now)
    ensures Flatten(AddFinished(buckets, build, now)) == Flatten(buckets) + [build]
  {
    FinishKeepsAscending(buckets, build, now);
    KeyIsLast(buckets, build, now);
    var i := KeyIndex(buckets, now);
    if i < |buckets| {
      FinishIntoLast(buckets[..i], buckets[i], build);
    } else {
      FlattenSnoc(buckets, Bucket(now, [build]));
    }
  }

  lemma FinishIntoLast(front: seq<Bucket>, last: Bucket, build: int)
    ensures Flatten(front + [Bucket(last.at, last.builds + [build])]) == Flatten(front + [last]) + [build]
  {
    FlattenSnoc(front, last);
    FlattenSnoc(front, Bucket(last.at, last.builds + [build]));
  }

  /**
   What one completed pass means, given ascending keys and a clock that never goes back:
   exactly a prefix goes, each bucket past its time when trimmed; every bucket kept was
   unexpired when the scan stopped; and the delay is the least remaining time among them.
   */
  lemma PassRemovesExactlyTheExpired(buckets: seq<Bucket>, readings: seq<int>, ttl: int)
    requires Ascending(buckets) && Clock(readings, |buckets|)
    ensures var k := Expired(buckets, readings, ttl);
      && (forall i :: 0 <= i < k ==> readings[i] - buckets[i].at > ttl)
      && (forall j :: k <= j < |buckets| ==> readings[k] - buckets[j].at <= ttl)
      && (forall j :: k <= j < |buckets| ==> ttl - (readings[k] - buckets[k].at) <= ttl - (readings[k] - buckets[j].at))
      && Ascending(buckets[k..])
      && Flatten(buckets) == Flatten(buckets[..k]) + Flatten(buckets[k..])
  {
    var k := Expired(buckets, readings, ttl);
    ExpiredScan(buckets, readings, ttl);
    forall j | k <= j < |buckets|
      ensures buckets[k].at <= buckets[j].at
    {
      if k < j { assert buckets[k].at < buckets[j].at; }
    }
    assert buckets == buckets[..k] + buckets[k..];
    FlattenConcat(buckets[..k], buckets[k..]);
  }

  // --- Whole runs of finishes and completed passes ---

  datatype Event =
    | Done(build: int, at: int)
    | Pass(readings: seq<int>, fault: Option<TrimFault>)

  datatype History = History(buckets: seq<Bucket>, done: seq<int>, collected: seq<int>, clock: int)

  /** The clock at the end of an event: no event sees an earlier time than the one before it. */
  function ClockAfter(h: History, e: Event): int {
    match e
    case Done(_, at) => at
    case Pass(readings, _) => if readings == [] then h.clock else readings[|readings| - 1]
  }

  predicate Possible(h: History, e: Event) {
    match e
    case Done(_, at) => h.clock <= at
    case Pass(readings, _) => Clock(readings, |h.buckets|) && (readings != [] ==> h.clock <= readings[0])
  }

  function Apply(h: History, e: Event, ttl: int): History
    requires Possible(h, e)
  {
    match e
    case Done(build, at) => History(AddFinished(h.buckets, build, at), h.done + [build], h.collected, at)
    case Pass(readings, fault) =>
      var k := Expired(h.buckets, readings, ttl);
      if Raises(h.buckets, k, fault) then h.(clock := ClockAfter(h, e))
      else History(h.buckets[k..], h.done, h.collected + Flatten(h.buckets[..k]), ClockAfter(h, e))
  }

  predicate Sound(h: History) {
    && Ascending(h.buckets) && NoneAfter(h.buckets, h.clock)
    && h.done == h.collected + Flatten(h.buckets)
  }

  predicate PossibleRun(h: History, events: seq<Event>, ttl: int)
    decreases |events|
  {
    events == [] || (Possible(h, events[0]) && PossibleRun(Apply(h, events[0], ttl), events[1..], ttl))
  }

  function RunAll(h: History, events: seq<Event>, ttl: int): History
    requires PossibleRun(h, events, ttl)
    decreases |events|
  {
    if events == [] then h else RunAll(Apply(h, events[0], ttl), events[1..], ttl)
  }

  lemma DoneKeepsSound(h: History, build: int, at: int, ttl: int)
    requires Sound(h) && h.clock <= at
    ensures Sound(Apply(h, Done(build, at), ttl))
  {
    FinishKeepsOrder(h.buckets, build, at);
    assert h.collected + Flatten(h.buckets) + [build] == h.collected + (Flatten(h.buckets) + [build]);
  }

  lemma PassKeepsSound(h: History, e: Event, ttl: int)
    requires Sound(h) && e.Pass? && Possible(h, e)
    ensures Sound(Apply(h, e, ttl))
  {
    PassRemovesExactlyTheExpired(h.buckets, e.readings, ttl);
    var k := Expired(h.buckets, e.readings, ttl);
    var gone, kept := Flatten(h.buckets[..k]), Flatten(h.buckets[k..]);
    assert h.clock <= ClockAfter(h, e) by {
      if |e.readings| > 1 { assert e.readings[0] <= e.readings[|e.readings| - 1]; }
    }
    assert h.collected + (gone + kept) == h.collected + gone + kept;
  }

  /**
   Over every run: keys stay in ascending insertion order, and each finished build is either
   still held or was collected, once, in the order the builds finished.
   */
  lemma {:induction false} EveryRunIsSound(h: History, events: seq<Event>, ttl: int)
    requires Sound(h) && PossibleRun(h, events, ttl)
    ensures Sound(RunAll(h, events, ttl))
    decreases |events|
  {
    if events == [] {
    } else {
      match events[0] {
        case Done(build, at) => DoneKeepsSound(h, build, at, ttl);
        case Pass(_, _) => PassKeepsSound(h, events[0], ttl);
      }
      EveryRunIsSound(Apply(h, events[0], ttl), events[1..], ttl);
    }
  }
}
