/**
 The build queue of `cbsd-rs/cbsd-server/src/queue/mod.rs`: three lanes, taken in the order of
 their priority.
 */
module BuildQueues {
  import opened Wrappers

  type Id = nat

  datatype Priority = High | Normal | Low

  datatype Build = Build(id: Id, priority: Priority)

  datatype Lanes = Lanes(high: seq<Build>, normal: seq<Build>, low: seq<Build>)

  function Lane(l: Lanes, p: Priority): seq<Build> {
    match p case High => l.high case Normal => l.normal case Low => l.low
  }

  function WithLane(l: Lanes, p: Priority, lane: seq<Build>): Lanes {
    match p case High => l.(high := lane) case Normal => l.(normal := lane) case Low => l.(low := lane)
  }

  function PushBack(l: Lanes, b: Build): Lanes {
    WithLane(l, b.priority, Lane(l, b.priority) + [b])
  }

  function PushFront(l: Lanes, b: Build): Lanes {
    WithLane(l, b.priority, [b] + Lane(l, b.priority))
  }

  function Next(l: Lanes): Option<Build> {
    if l.high != [] then Some(l.high[0])
    else if l.normal != [] then Some(l.normal[0])
    else if l.low != [] then Some(l.low[0])
    else None
  }

  function PopNext(l: Lanes): Lanes {
    if l.high != [] then l.(high := l.high[1..])
    else if l.normal != [] then l.(normal := l.normal[1..])
    else if l.low != [] then l.(low := l.low[1..])
    else l
  }

  function Position(lane: seq<Build>, id: Id, from: nat): nat
    requires from <= |lane|
    decreases |lane| - from
  {
    if from == |lane| || lane[from].id == id then from else Position(lane, id, from + 1)
  }

  /** The lane without its first build of that id. */
  function Without(lane: seq<Build>, id: Id): seq<Build> {
    var at := Position(lane, id, 0);
    if at < |lane| then lane[..at] + lane[at + 1..] else lane
  }

  predicate InLane(lane: seq<Build>, id: Id) {
    exists i :: 0 <= i < |lane| && lane[i].id == id
  }

  function RemoveSpec(l: Lanes, id: Id): Lanes {
    if InLane(l.high, id) then l.(high := Without(l.high, id))
    else if InLane(l.normal, id) then l.(normal := Without(l.normal, id))
    else l.(low := Without(l.low, id))
  }

  lemma {:induction false} PositionFinds(lane: seq<Build>, id: Id, from: nat)
    requires from <= |lane|
    ensures var at := Position(lane, id, from);
      && from <= at <= |lane| && (at < |lane| ==> lane[at].id == id)
      && forall i :: from <= i < at ==> lane[i].id != id
    decreases |lane| - from
  {
    if from < |lane| && lane[from].id != id {
      PositionFinds(lane, id, from + 1);
    }
  }

  /** Every build stands in the lane of its own priority. */
  predicate Sorted(l: Lanes) {
    forall p, i :: 0 <= i < |Lane(l, p)| ==> Lane(l, p)[i].priority == p
  }

  /** What is taken is of the highest priority waiting, and putting it back restores the queue. */
  lemma NextIsMostUrgent(l: Lanes, b: Build)
    requires Sorted(l) && Next(l) == Some(b)
    ensures b.priority.Normal? ==> l.high == []
    ensures b.priority.Low? ==> l.high == [] && l.normal == []
    ensures PushFront(PopNext(l), b) == l
  {
    var p := if l.high != [] then High else if l.normal != [] then Normal else Low;
    assert Lane(l, p)[0] == b;
    assert [b] + Lane(l, p)[1..] == Lane(l, p);
  }

  class BuildQueue {
    var high: seq<Build>
    var normal: seq<Build>
    var low: seq<Build>

    ghost function View(): Lanes
      reads this
    {
      Lanes(high, normal, low)
    }

    constructor ()
      ensures View() == Lanes([], [], [])
    {
      high, normal, low := [], [], [];
    }

    method Enqueue(b: Build)
      modifies this
      ensures View() == PushBack(old(View()), b)
    {
      match b.priority {
        case High => high := high + [b];
        case Normal => normal := normal + [b];
        case Low => low := low + [b];
      }
    }

    method EnqueueFront(b: Build)
      modifies this
      ensures View() == PushFront(old(View()), b)
    {
      match b.priority {
        case High => high := [b] + high;
        case Normal => normal := [b] + normal;
        case Low => low := [b] + low;
      }
    }

    method NextPending() returns (b: Option<Build>)
      modifies this
      ensures b == Next(old(View())) && View() == PopNext(old(View()))
    {
      if high != [] {
        b := Some(high[0]);
        high := high[1..];
        return;
      }
      if normal != [] {
        b := Some(normal[0]);
        normal := normal[1..];
        return;
      }
      if low == [] {
        return None;
      }
      b := Some(low[0]);
      low := low[1..];
    }

    /** Takes the first build of that id out of the first lane that has one. */
    method RemoveById(id: Id) returns (found: bool)
      modifies this
      ensures View() == RemoveSpec(old(View()), id)
      ensures found <==> InLane(old(high), id) || InLane(old(normal), id) || InLane(old(low), id)
    {
      high, found := RemoveFromLane(high, id);
      if found {
        return;
      }
      normal, found := RemoveFromLane(normal, id);
      if found {
        return;
      }
      low, found := RemoveFromLane(low, id);
    }
  }

  method RemoveFromLane(lane: seq<Build>, id: Id) returns (rest: seq<Build>, found: bool)
    ensures rest == Without(lane, id) && (found <==> InLane(lane, id)) && (!found ==> rest == lane)
  {
    PositionFinds(lane, id, 0);
    var i := 0;
    while i < |lane| && lane[i].id != id
      invariant i <= |lane| && Position(lane, id, 0) == Position(lane, id, i)
      invariant forall j :: 0 <= j < i ==> lane[j].id != id
    {
      i := i + 1;
    }
    if i == |lane| {
      return lane, false;
    }
    return lane[..i] + lane[i + 1..], true;
  }
}

/**
 Dispatching as in `cbsd-rs/cbsd-server/src/ws/dispatch.rs`, with submission, revocation and
 recovery: a step is one section under the queue lock or one database update, and the calls
 interleave freely. Where a build is in memory is kept apart from what its row says.
 */
module Dispatching {
  import opened Wrappers
  import opened BuildQueues

  type Token = nat

  datatype RowState = Queued | Dispatched | Started | Revoking | Terminal

  datatype Row = Row(state: RowState, priority: Priority)

  /** A build in the hands of a call: not enqueued yet, or taken from the active ones to be queued again. */
  datatype HeldPhase = Submitting | Removed | RowReset

  datatype Held = Held(priority: Priority, phase: HeldPhase)

  datatype Revocation = Revocation(id: Id, removed: bool)

  /** `gone` are the builds that this process no longer has anywhere. */
  datatype System = System(
    lanes: Lanes, active: map<Id, Priority>, held: map<Id, Held>, gone: set<Id>,
    rows: map<Id, Row>, finishing: map<Token, Id>, revoking: map<Token, Revocation>)

  datatype Outcome = NoWorker | RowFault | Sent

  datatype Step =
    | Insert(id: Id, priority: Priority)
    | EnqueueNew(id: Id)
    | AbandonSubmission(id: Id)
    | Dispatch(outcome: Outcome)
    | RollbackRemove(id: Id)
    | RollbackRow(id: Id, fault: bool)
    | RollbackEnqueue(id: Id)
    | SetRow(id: Id, state: RowState)
    | FinishRow(token: Token, id: Id, fault: bool)
    | FinishRemove(token: Token)
    | RevokeRead(token: Token, id: Id)
    | RevokeRemove(token: Token)
    | RevokeRow(token: Token, fault: bool)
    | Restart(order: seq<Id>, corrupt: set<Id>)

  predicate Fresh(s: System, t: Token) {
    t !in s.finishing && t !in s.revoking
  }

  /** The order in which recovery enqueues the queued rows whose descriptor can be read: each once. */
  predicate ReadsQueued(rows: map<Id, Row>, order: seq<Id>, corrupt: set<Id>) {
    && (forall i, j :: 0 <= i < j < |order| ==> order[i] != order[j])
    && (forall i :: 0 <= i < |order| ==> order[i] in rows && rows[order[i]].state.Queued? && order[i] !in corrupt)
    && (forall id :: id in rows && rows[id].state.Queued? && id !in corrupt ==> id in order)
  }

  predicate Enabled(s: System, step: Step) {
    match step
    case Insert(id, _) => id !in s.rows
    case EnqueueNew(id) => id in s.held && s.held[id].phase.Submitting?
    case AbandonSubmission(id) => id in s.held && s.held[id].phase.Submitting?
    case Dispatch(_) => true
    case RollbackRemove(_) => true
    case RollbackRow(id, _) => id in s.held && s.held[id].phase.Removed? && id in s.rows
    case RollbackEnqueue(id) => id in s.held && s.held[id].phase.RowReset?
    case SetRow(id, state) => id in s.rows && (state.Started? || state.Revoking?)
    case FinishRow(t, id, _) => Fresh(s, t) && id in s.rows
    case FinishRemove(t) => t in s.finishing
    case RevokeRead(t, id) => Fresh(s, t) && id in s.rows && s.rows[id].state.Queued?
    case RevokeRemove(t) => t in s.revoking && !s.revoking[t].removed
    case RevokeRow(t, _) => t in s.revoking && s.revoking[t].removed && s.revoking[t].id in s.rows
    case Restart(order, corrupt) => ReadsQueued(s.rows, order, corrupt)
  }

  function SetState(rows: map<Id, Row>, id: Id, state: RowState): map<Id, Row>
    requires id in rows
  {
    rows[id := rows[id].(state := state)]
  }

  function DispatchSpec(s: System, b: Build, outcome: Outcome): System {
    match outcome
    case NoWorker => s.(lanes := PushFront(PopNext(s.lanes), b))
    case RowFault => s.(lanes := PopNext(s.lanes), gone := s.gone + {b.id})
    case Sent =>
      s.(lanes := PopNext(s.lanes), active := s.active[b.id := b.priority],
         rows := if b.id in s.rows then SetState(s.rows, b.id, Dispatched) else s.rows)
  }

  /** The lanes after the first n of the rows read are enqueued. */
  function Refill(rows: map<Id, Row>, order: seq<Id>, n: nat): Lanes
    requires n <= |order| && forall i :: 0 <= i < |order| ==> order[i] in rows
  {
    if n == 0 then Lanes([], [], [])
    else PushBack(Refill(rows, order, n - 1), Build(order[n - 1], rows[order[n - 1]].priority))
  }

  predicate StaysQueued(rows: map<Id, Row>, corrupt: set<Id>, id: Id) {
    id in rows && rows[id].state.Queued? && id !in corrupt
  }

  function Recovered(rows: map<Id, Row>, corrupt: set<Id>): map<Id, Row> {
    map id | id in rows :: if StaysQueued(rows, corrupt, id) then rows[id] else rows[id].(state := Terminal)
  }

  /** The builds a restart does not enqueue. */
  function NotRecovered(rows: map<Id, Row>, corrupt: set<Id>): set<Id> {
    set id | id in rows && !StaysQueued(rows, corrupt, id)
  }

  /** The server after a recovery that enqueued `l`. */
  function Restarted(l: Lanes, rows: map<Id, Row>, corrupt: set<Id>): System {
    System(l, map[], map[], NotRecovered(rows, corrupt), Recovered(rows, corrupt), map[], map[])
  }

  function Apply(s: System, step: Step): System
    requires Enabled(s, step)
  {
    match step
    case Insert(id, p) => s.(rows := s.rows[id := Row(Queued, p)], held := s.held[id := Held(p, Submitting)])
    case EnqueueNew(id) => s.(lanes := PushBack(s.lanes, Build(id, s.held[id].priority)), held := s.held - {id})
    case AbandonSubmission(id) => s.(gone := s.gone + {id}, held := s.held - {id})
    case Dispatch(outcome) => if Next(s.lanes).None? then s else DispatchSpec(s, Next(s.lanes).value, outcome)
    case RollbackRemove(id) =>
      if id !in s.active then s
      else s.(active := s.active - {id}, held := s.held[id := Held(s.active[id], Removed)])
    case RollbackRow(id, fault) =>
      s.(rows := if fault then s.rows else SetState(s.rows, id, Queued), held := s.held[id := s.held[id].(phase := RowReset)])
    case RollbackEnqueue(id) => s.(lanes := PushFront(s.lanes, Build(id, s.held[id].priority)), held := s.held - {id})
    case SetRow(id, state) => s.(rows := SetState(s.rows, id, state))
    case FinishRow(t, id, fault) =>
      s.(rows := if fault then s.rows else SetState(s.rows, id, Terminal), finishing := s.finishing[t := id])
    case FinishRemove(t) =>
      var id := s.finishing[t];
      s.(active := s.active - {id}, gone := if id in s.active then s.gone + {id} else s.gone, finishing := s.finishing - {t})
    case RevokeRead(t, id) => s.(revoking := s.revoking[t := Revocation(id, false)])
    case RevokeRemove(t) =>
      var id := s.revoking[t].id;
      s.(lanes := RemoveSpec(s.lanes, id), gone := if id in Ids(s.lanes) then s.gone + {id} else s.gone,
         revoking := s.revoking[t := Revocation(id, true)])
    case RevokeRow(t, fault) =>
      s.(rows := if fault then s.rows else SetState(s.rows, s.revoking[t].id, Terminal), revoking := s.revoking - {t})
    case Restart(order, corrupt) => Restarted(Refill(s.rows, order, |order|), s.rows, corrupt)
  }

  predicate Legal(s: System, steps: seq<Step>)
    decreases |steps|
  {
    steps == [] || (Enabled(s, steps[0]) && Legal(Apply(s, steps[0]), steps[1..]))
  }

  function RunAll(s: System, steps: seq<Step>): System
    requires Legal(s, steps)
    decreases |steps|
  {
    if steps == [] then s else RunAll(Apply(s, steps[0]), steps[1..])
  }

  function Empty(): System {
    System(Lanes([], [], []), map[], map[], {}, map[], map[], map[])
  }

  // --- Lanes as sets of ids ---

  function LaneIds(lane: seq<Build>): set<Id> {
    if lane == [] then {} else LaneIds(lane[..|lane| - 1]) + {lane[|lane| - 1].id}
  }

  function Ids(l: Lanes): set<Id> {
    LaneIds(l.high) + LaneIds(l.normal) + LaneIds(l.low)
  }

  /** A lane of one priority, no id twice, the priority being that of the row. */
  predicate LaneOk(lane: seq<Build>, p: Priority, rows: map<Id, Row>) {
    lane == [] ||
    var front, last := lane[..|lane| - 1], lane[|lane| - 1];
    && LaneOk(front, p, rows) && last.id !in LaneIds(front)
    && last.priority == p && last.id in rows && rows[last.id].priority == p
  }

  predicate LanesOk(l: Lanes, rows: map<Id, Row>) {
    LaneOk(l.high, High, rows) && LaneOk(l.normal, Normal, rows) && LaneOk(l.low, Low, rows)
  }

  ghost predicate SamePriorities(rows: map<Id, Row>, rows': map<Id, Row>) {
    forall id :: id in rows ==> id in rows' && rows'[id].priority == rows[id].priority
  }

  lemma {:induction false} LaneRowsMayChange(lane: seq<Build>, p: Priority, rows: map<Id, Row>, rows': map<Id, Row>)
    requires LaneOk(lane, p, rows) && SamePriorities(rows, rows')
    ensures LaneOk(lane, p, rows')
  {
    if lane == [] {
    } else {
      LaneRowsMayChange(lane[..|lane| - 1], p, rows, rows');
    }
  }

  lemma RowsMayChange(l: Lanes, rows: map<Id, Row>, rows': map<Id, Row>)
    requires LanesOk(l, rows) && SamePriorities(rows, rows')
    ensures LanesOk(l, rows')
  {
    LaneRowsMayChange(l.high, High, rows, rows');
    LaneRowsMayChange(l.normal, Normal, rows, rows');
    LaneRowsMayChange(l.low, Low, rows, rows');
  }

  lemma {:induction false} LaneHasRows(lane: seq<Build>, p: Priority, rows: map<Id, Row>, id: Id)
    requires LaneOk(lane, p, rows) && id in LaneIds(lane)
    ensures id in rows && rows[id].priority == p
  {
    if id != lane[|lane| - 1].id {
      LaneHasRows(lane[..|lane| - 1], p, rows, id);
    }
  }

  lemma AppendToLane(lane: seq<Build>, b: Build, rows: map<Id, Row>)
    requires LaneOk(lane, b.priority, rows) && b.id in rows && rows[b.id].priority == b.priority && b.id !in LaneIds(lane)
    ensures LaneOk(lane + [b], b.priority, rows) && LaneIds(lane + [b]) == LaneIds(lane) + {b.id}
  {
    assert (lane + [b])[..|lane|] == lane;
  }

  lemma {:induction false} PrependToLane(lane: seq<Build>, b: Build, rows: map<Id, Row>)
    requires LaneOk(lane, b.priority, rows) && b.id in rows && rows[b.id].priority == b.priority && b.id !in LaneIds(lane)
    ensures LaneOk([b] + lane, b.priority, rows) && LaneIds([b] + lane) == LaneIds(lane) + {b.id}
  {
    if lane == [] {
      AppendToLane(lane, b, rows);
      assert [b] + lane == lane + [b];
    } else {
      var front, last := lane[..|lane| - 1], lane[|lane| - 1];
      PrependToLane(front, b, rows);
      AppendToLane([b] + front, last, rows);
      assert [b] + front + [last] == [b] + lane;
    }
  }

  lemma {:induction false} TakeFromLane(lane: seq<Build>, at: nat, p: Priority, rows: map<Id, Row>)
    requires LaneOk(lane, p, rows) && at < |lane|
    ensures lane[at].id in LaneIds(lane)
    ensures LaneOk(lane[..at] + lane[at + 1..], p, rows)
    ensures LaneIds(lane[..at] + lane[at + 1..]) == LaneIds(lane) - {lane[at].id}
  {
    var front, last := lane[..|lane| - 1], lane[|lane| - 1];
    if at == |lane| - 1 {
      assert lane[..at] + lane[at + 1..] == front;
    } else {
      TakeFromLane(front, at, p, rows);
      var rest := front[..at] + front[at + 1..];
      AppendToLane(rest, last, rows);
      assert rest + [last] == lane[..at] + lane[at + 1..];
    }
  }

  lemma {:induction false} LaneIdHasPlace(lane: seq<Build>, id: Id)
    ensures id in LaneIds(lane) <==> InLane(lane, id)
  {
    if lane == [] {
    } else {
      LaneIdHasPlace(lane[..|lane| - 1], id);
    }
  }

  lemma WithoutKeepsLane(lane: seq<Build>, id: Id, p: Priority, rows: map<Id, Row>)
    requires LaneOk(lane, p, rows)
    ensures LaneOk(Without(lane, id), p, rows) && LaneIds(Without(lane, id)) == LaneIds(lane) - {id}
    ensures id in LaneIds(lane) <==> InLane(lane, id)
  {
    LaneIdHasPlace(lane, id);
    PositionFinds(lane, id, 0);
    var at := Position(lane, id, 0);
    if at < |lane| {
      TakeFromLane(lane, at, p, rows);
    }
  }

  /** The lanes share no id, for an id has one priority. */
  lemma LanesAreDisjoint(l: Lanes, rows: map<Id, Row>, id: Id)
    requires LanesOk(l, rows)
    ensures id in LaneIds(l.high) ==> id !in LaneIds(l.normal) && id !in LaneIds(l.low)
    ensures id in LaneIds(l.normal) ==> id !in LaneIds(l.low)
  {
    if id in LaneIds(l.high) {
      LaneHasRows(l.high, High, rows, id);
    }
    if id in LaneIds(l.normal) {
      LaneHasRows(l.normal, Normal, rows, id);
    }
    if id in LaneIds(l.low) {
      LaneHasRows(l.low, Low, rows, id);
    }
  }

  lemma PushBackKeepsLanes(l: Lanes, b: Build, rows: map<Id, Row>)
    requires LanesOk(l, rows) && b.id in rows && rows[b.id].priority == b.priority && b.id !in Ids(l)
    ensures LanesOk(PushBack(l, b), rows) && Ids(PushBack(l, b)) == Ids(l) + {b.id}
  {
    AppendToLane(Lane(l, b.priority), b, rows);
  }

  lemma PushFrontKeepsLanes(l: Lanes, b: Build, rows: map<Id, Row>)
    requires LanesOk(l, rows) && b.id in rows && rows[b.id].priority == b.priority && b.id !in Ids(l)
    ensures LanesOk(PushFront(l, b), rows) && Ids(PushFront(l, b)) == Ids(l) + {b.id}
  {
    PrependToLane(Lane(l, b.priority), b, rows);
  }

  lemma PushKeepsLanes(l: Lanes, b: Build, rows: map<Id, Row>)
    requires LanesOk(l, rows) && b.id in rows && rows[b.id].priority == b.priority && b.id !in Ids(l)
    ensures LanesOk(PushBack(l, b), rows) && Ids(PushBack(l, b)) == Ids(l) + {b.id}
    ensures LanesOk(PushFront(l, b), rows) && Ids(PushFront(l, b)) == Ids(l) + {b.id}
  {
    PushBackKeepsLanes(l, b, rows);
    PushFrontKeepsLanes(l, b, rows);
  }

  lemma {:induction false} FirstHasPriority(lane: seq<Build>, p: Priority, rows: map<Id, Row>)
    requires LaneOk(lane, p, rows) && lane != []
    ensures lane[0].priority == p
  {
    if |lane| > 1 {
      FirstHasPriority(lane[..|lane| - 1], p, rows);
    }
  }

  lemma {:induction false} TailOfLane(lane: seq<Build>, p: Priority, rows: map<Id, Row>)
    requires LaneOk(lane, p, rows) && lane != []
    ensures LaneOk(lane[1..], p, rows)
    ensures LaneIds(lane[1..]) == LaneIds(lane) - {lane[0].id} && lane[0].id in LaneIds(lane)
  {
    if |lane| == 1 {
      assert lane[1..] == [] == lane[..0];
    } else {
      var front, last := lane[..|lane| - 1], lane[|lane| - 1];
      TailOfLane(front, p, rows);
      AppendToLane(front[1..], last, rows);
      assert front[1..] + [last] == lane[1..];
    }
  }

  lemma PopKeepsLanes(l: Lanes, rows: map<Id, Row>)
    requires LanesOk(l, rows) && Next(l).Some?
    ensures var b := Next(l).value;
      && b.id in Ids(l) && b.id in rows && rows[b.id].priority == b.priority
      && LanesOk(PopNext(l), rows) && Ids(PopNext(l)) == Ids(l) - {b.id} && PushFront(PopNext(l), b) == l
  {
    var p := if l.high != [] then High else if l.normal != [] then Normal else Low;
    var lane := Lane(l, p);
    TailOfLane(lane, p, rows);
    LaneHasRows(lane, p, rows, lane[0].id);
    FirstHasPriority(lane, p, rows);
    LanesAreDisjoint(l, rows, lane[0].id);
    assert [lane[0]] + lane[1..] == lane;
  }

  lemma WithoutAbsent(lane: seq<Build>, id: Id)
    requires !InLane(lane, id)
    ensures Without(lane, id) == lane
  {
    PositionFinds(lane, id, 0);
  }

  /** Removing from the first lane that has the id is removing from all, for at most one has it. */
  lemma RemoveIsWithout(l: Lanes, id: Id, rows: map<Id, Row>)
    requires LanesOk(l, rows)
    ensures RemoveSpec(l, id) == Lanes(Without(l.high, id), Without(l.normal, id), Without(l.low, id))
  {
    LanesAreDisjoint(l, rows, id);
    LaneIdHasPlace(l.high, id);
    LaneIdHasPlace(l.normal, id);
    LaneIdHasPlace(l.low, id);
    if !InLane(l.high, id) {
      WithoutAbsent(l.high, id);
    }
    if !InLane(l.normal, id) {
      WithoutAbsent(l.normal, id);
    }
    if !InLane(l.low, id) {
      WithoutAbsent(l.low, id);
    }
  }

  lemma RemoveKeepsLanes(l: Lanes, id: Id, rows: map<Id, Row>)
    requires LanesOk(l, rows)
    ensures LanesOk(RemoveSpec(l, id), rows) && Ids(RemoveSpec(l, id)) == Ids(l) - {id}
  {
    RemoveIsWithout(l, id, rows);
    WithoutKeepsLane(l.high, id, High, rows);
    WithoutKeepsLane(l.normal, id, Normal, rows);
    WithoutKeepsLane(l.low, id, Low, rows);
  }

  /** The ids among the first n read. */
  function FirstRead(order: seq<Id>, n: nat): set<Id>
    requires n <= |order|
  {
    if n == 0 then {} else FirstRead(order, n - 1) + {order[n - 1]}
  }

  lemma {:induction false} FirstReadHolds(order: seq<Id>, n: nat, id: Id)
    requires n <= |order|
    ensures id in FirstRead(order, n) <==> exists i :: 0 <= i < n && order[i] == id
  {
    if n == 0 {
    } else {
      FirstReadHolds(order, n - 1, id);
    }
  }

  lemma NotReadYet(rows: map<Id, Row>, order: seq<Id>, corrupt: set<Id>, n: nat)
    requires n < |order| && ReadsQueued(rows, order, corrupt)
    ensures order[n] !in FirstRead(order, n)
  {
    FirstReadHolds(order, n, order[n]);
  }

  lemma {:induction false} RefillIsExact(rows: map<Id, Row>, order: seq<Id>, corrupt: set<Id>, n: nat, l: Lanes)
    requires n <= |order| && ReadsQueued(rows, order, corrupt) && l == Refill(rows, order, n)
    ensures LanesOk(l, rows) && Ids(l) == FirstRead(order, n)
    decreases n
  {
    if n == 0 {
    } else {
      var before, b := Refill(rows, order, n - 1), Build(order[n - 1], rows[order[n - 1]].priority);
      RefillIsExact(rows, order, corrupt, n - 1, before);
      NotReadYet(rows, order, corrupt, n - 1);
      RefillStep(before, b, rows, FirstRead(order, n - 1), l);
    }
  }

  lemma RefillStep(before: Lanes, b: Build, rows: map<Id, Row>, read: set<Id>, l: Lanes)
    requires LanesOk(before, rows) && Ids(before) == read && b.id !in read
    requires b.id in rows && rows[b.id].priority == b.priority && l == PushBack(before, b)
    ensures LanesOk(l, rows) && Ids(l) == read + {b.id}
  {
    PushKeepsLanes(before, b, rows);
  }

  // --- Every build is in exactly one place ---

  ghost predicate HeldOk(held: map<Id, Held>, rows: map<Id, Row>) {
    forall id :: id in held ==> id in rows && rows[id].priority == held[id].priority
  }

  ghost predicate ActiveOk(active: map<Id, Priority>, rows: map<Id, Row>) {
    forall id :: id in active ==> id in rows && rows[id].priority == active[id]
  }

  /** Four sets that share nothing and together make up the whole. */
  ghost predicate Partition(a: set<Id>, b: set<Id>, c: set<Id>, d: set<Id>, all: set<Id>) {
    && (forall id :: id in all <==> id in a || id in b || id in c || id in d)
    && (forall id :: id in a ==> id !in b && id !in c && id !in d)
    && (forall id :: id in b ==> id !in c && id !in d)
    && (forall id :: id in c ==> id !in d)
  }

  /** Waiting, active, in a call's hands, or gone: exactly one of these, for every row. */
  ghost predicate OnePlace(s: System) {
    Partition(Ids(s.lanes), s.active.Keys, s.held.Keys, s.gone, s.rows.Keys)
  }

  /** Everything but the lanes, of which only the ids waiting matter here. */
  ghost predicate RestOk(waiting: set<Id>, s: System) {
    && HeldOk(s.held, s.rows) && ActiveOk(s.active, s.rows)
    && Partition(waiting, s.active.Keys, s.held.Keys, s.gone, s.rows.Keys)
    && (forall t :: t in s.revoking ==> s.revoking[t].id in s.rows)
  }

  ghost predicate Inv(s: System) {
    LanesOk(s.lanes, s.rows) && RestOk(Ids(s.lanes), s)
  }

  lemma RestInsert(w: set<Id>, s: System, id: Id, p: Priority)
    requires RestOk(w, s) && id !in s.rows
    ensures RestOk(w, s.(rows := s.rows[id := Row(Queued, p)], held := s.held[id := Held(p, Submitting)]))
  {
  }

  lemma RestLeaveHeld(w: set<Id>, s: System, id: Id, l: Lanes)
    requires RestOk(w, s) && id in s.held
    ensures RestOk(w + {id}, s.(lanes := l, held := s.held - {id}))
    ensures RestOk(w, s.(gone := s.gone + {id}, held := s.held - {id}))
  {
  }

  lemma RestLose(w: set<Id>, s: System, id: Id, l: Lanes)
    requires RestOk(w, s) && id in w
    ensures RestOk(w - {id}, s.(lanes := l, gone := s.gone + {id}))
  {
  }

  lemma RestDispatch(w: set<Id>, s: System, b: Build, l: Lanes)
    requires RestOk(w, s) && b.id in w && b.id in s.rows && s.rows[b.id].priority == b.priority
    ensures RestOk(w - {b.id}, s.(lanes := l, active := s.active[b.id := b.priority], rows := SetState(s.rows, b.id, Dispatched)))
  {
  }

  lemma RestLeaveActive(w: set<Id>, s: System, id: Id)
    requires RestOk(w, s) && id in s.active
    ensures RestOk(w, s.(active := s.active - {id}, held := s.held[id := Held(s.active[id], Removed)]))
    ensures RestOk(w, s.(active := s.active - {id}, gone := s.gone + {id}))
  {
  }

  lemma RestRevoke(w: set<Id>, s: System, t: Token, l: Lanes)
    requires RestOk(w, s) && t in s.revoking
    ensures var id := s.revoking[t].id;
      RestOk(w - {id}, s.(lanes := l, gone := if id in w then s.gone + {id} else s.gone, revoking := s.revoking[t := Revocation(id, true)]))
  {
  }

  lemma RestRows(w: set<Id>, s: System, id: Id, state: RowState)
    requires RestOk(w, s) && id in s.rows
    ensures RestOk(w, s.(rows := SetState(s.rows, id, state)))
  {
  }

  lemma RestRollbackRow(w: set<Id>, s: System, id: Id)
    requires RestOk(w, s) && id in s.held
    ensures RestOk(w, s.(held := s.held[id := s.held[id].(phase := RowReset)]))
  {
  }

  /** Only the rows, the calls and the four places matter to the rest. */
  lemma RestSame(w: set<Id>, s: System, s': System)
    requires RestOk(w, s)
    requires s'.active == s.active && s'.held == s.held && s'.gone == s.gone && s'.rows == s.rows
    requires forall t :: t in s'.revoking ==> t in s.revoking && s'.revoking[t] == s.revoking[t]
    ensures RestOk(w, s')
  {
  }

  lemma InsertKeepsInv(s: System, id: Id, p: Priority)
    requires Inv(s) && Enabled(s, Insert(id, p))
    ensures Inv(Apply(s, Insert(id, p)))
  {
    RestInsert(Ids(s.lanes), s, id, p);
    RowsMayChange(s.lanes, s.rows, s.rows[id := Row(Queued, p)]);
  }

  lemma EnqueueKeepsInv(s: System, step: Step)
    requires Inv(s) && Enabled(s, step) && (step.EnqueueNew? || step.RollbackEnqueue?)
    ensures Inv(Apply(s, step))
  {
    var id := step.id;
    assert id in s.held.Keys;
    PushKeepsLanes(s.lanes, Build(id, s.held[id].priority), s.rows);
    RestLeaveHeld(Ids(s.lanes), s, id, Apply(s, step).lanes);
  }

  lemma DispatchKeepsInv(s: System, outcome: Outcome)
    requires Inv(s)
    ensures Inv(Apply(s, Dispatch(outcome)))
  {
    if Next(s.lanes).Some? {
      var b, rest := Next(s.lanes).value, PopNext(s.lanes);
      PopKeepsLanes(s.lanes, s.rows);
      match outcome
      case NoWorker =>
      case RowFault => RestLose(Ids(s.lanes), s, b.id, rest);
      case Sent =>
        RestDispatch(Ids(s.lanes), s, b, rest);
        RowsMayChange(rest, s.rows, SetState(s.rows, b.id, Dispatched));
    }
  }

  lemma RollbackRowKeepsInv(s: System, id: Id, fault: bool)
    requires Inv(s) && Enabled(s, RollbackRow(id, fault))
    ensures Inv(Apply(s, RollbackRow(id, fault)))
  {
    RestRollbackRow(Ids(s.lanes), s, id);
    var mid := s.(held := s.held[id := s.held[id].(phase := RowReset)]);
    RestRows(Ids(s.lanes), mid, id, Queued);
    RowsMayChange(s.lanes, s.rows, SetState(s.rows, id, Queued));
  }

  lemma RevokeRemoveKeepsInv(s: System, t: Token)
    requires Inv(s) && Enabled(s, RevokeRemove(t))
    ensures Inv(Apply(s, RevokeRemove(t)))
  {
    RemoveKeepsLanes(s.lanes, s.revoking[t].id, s.rows);
    RestRevoke(Ids(s.lanes), s, t, RemoveSpec(s.lanes, s.revoking[t].id));
  }

  lemma SetRowKeepsInv(s: System, id: Id, state: RowState)
    requires Inv(s) && id in s.rows
    ensures Inv(s.(rows := SetState(s.rows, id, state)))
  {
    RestRows(Ids(s.lanes), s, id, state);
    RowsMayChange(s.lanes, s.rows, SetState(s.rows, id, state));
  }

  lemma FinishRowKeepsInv(s: System, t: Token, id: Id, fault: bool)
    requires Inv(s) && Enabled(s, FinishRow(t, id, fault))
    ensures Inv(Apply(s, FinishRow(t, id, fault)))
  {
    SetRowKeepsInv(s, id, Terminal);
    var mid := if fault then s else s.(rows := SetState(s.rows, id, Terminal));
    RestSame(Ids(s.lanes), mid, Apply(s, FinishRow(t, id, fault)));
  }

  lemma FinishRemoveKeepsInv(s: System, t: Token)
    requires Inv(s) && t in s.finishing
    ensures Inv(Apply(s, FinishRemove(t)))
  {
    var id, s' := s.finishing[t], Apply(s, FinishRemove(t));
    if id in s.active {
      RestLeaveActive(Ids(s.lanes), s, id);
      RestSame(Ids(s.lanes), s.(active := s.active - {id}, gone := s.gone + {id}), s');
    } else {
      assert s.active - {id} == s.active;
      RestSame(Ids(s.lanes), s, s');
    }
  }

  lemma RevokeReadKeepsInv(s: System, t: Token, id: Id)
    requires Inv(s) && Enabled(s, RevokeRead(t, id))
    ensures Inv(Apply(s, RevokeRead(t, id)))
  {
  }

  lemma RevokeRowKeepsInv(s: System, t: Token, fault: bool)
    requires Inv(s) && Enabled(s, RevokeRow(t, fault))
    ensures Inv(Apply(s, RevokeRow(t, fault)))
  {
    var id := s.revoking[t].id;
    SetRowKeepsInv(s, id, Terminal);
    var mid := if fault then s else s.(rows := SetState(s.rows, id, Terminal));
    RestSame(Ids(s.lanes), mid, Apply(s, RevokeRow(t, fault)));
  }

  lemma RestartLanes(rows: map<Id, Row>, order: seq<Id>, corrupt: set<Id>, l: Lanes)
    requires ReadsQueued(rows, order, corrupt) && l == Refill(rows, order, |order|)
    ensures LanesOk(l, rows) && forall id :: id in Ids(l) <==> StaysQueued(rows, corrupt, id)
  {
    RefillIsExact(rows, order, corrupt, |order|, l);
    forall id
      ensures id in FirstRead(order, |order|) <==> StaysQueued(rows, corrupt, id)
    {
      FirstReadHolds(order, |order|, id);
    }
  }

  lemma RecoveredPartition(w: set<Id>, rows: map<Id, Row>, corrupt: set<Id>)
    requires forall id :: id in w <==> StaysQueued(rows, corrupt, id)
    ensures Partition(w, {}, {}, NotRecovered(rows, corrupt), Recovered(rows, corrupt).Keys)
  {
  }

  lemma RestRestart(w: set<Id>, rows: map<Id, Row>, corrupt: set<Id>, l: Lanes)
    requires forall id :: id in w <==> StaysQueued(rows, corrupt, id)
    ensures RestOk(w, Restarted(l, rows, corrupt))
  {
    RecoveredPartition(w, rows, corrupt);
    var none: map<Id, Priority>, nobody: map<Id, Held> := map[], map[];
    assert none.Keys == {} && nobody.Keys == {};
  }

  lemma RecoveredLanes(l: Lanes, rows: map<Id, Row>, corrupt: set<Id>)
    requires LanesOk(l, rows)
    ensures LanesOk(l, Recovered(rows, corrupt))
  {
    RowsMayChange(l, rows, Recovered(rows, corrupt));
  }

  lemma RecoveredInv(l: Lanes, rows: map<Id, Row>, corrupt: set<Id>)
    requires LanesOk(l, rows) && forall id :: id in Ids(l) <==> StaysQueued(rows, corrupt, id)
    ensures Inv(Restarted(l, rows, corrupt))
  {
    RecoveredLanes(l, rows, corrupt);
    RestRestart(Ids(l), rows, corrupt, l);
  }

  lemma RestartKeepsInv(s: System, order: seq<Id>, corrupt: set<Id>)
    requires ReadsQueued(s.rows, order, corrupt)
    ensures var s' := Apply(s, Restart(order, corrupt));
      Inv(s') && forall id :: id in Ids(s'.lanes) <==> StaysQueued(s.rows, corrupt, id)
  {
    var l := Apply(s, Restart(order, corrupt)).lanes;
    RestartLanes(s.rows, order, corrupt, l);
    RecoveredInv(l, s.rows, corrupt);
  }

  lemma StepKeepsInv(s: System, step: Step)
    requires Inv(s) && Enabled(s, step)
    ensures Inv(Apply(s, step))
  {
    match step
    case Insert(id, p) => InsertKeepsInv(s, id, p);
    case EnqueueNew(_) => EnqueueKeepsInv(s, step);
    case AbandonSubmission(id) => RestLeaveHeld(Ids(s.lanes), s, id, s.lanes);
    case Dispatch(outcome) => DispatchKeepsInv(s, outcome);
    case RollbackRemove(id) =>
      if id in s.active {
        RestLeaveActive(Ids(s.lanes), s, id);
      }
    case RollbackRow(id, fault) => RollbackRowKeepsInv(s, id, fault);
    case RollbackEnqueue(_) => EnqueueKeepsInv(s, step);
    case RevokeRemove(t) => RevokeRemoveKeepsInv(s, t);
    case RevokeRead(t, id) => RevokeReadKeepsInv(s, t, id);
    case RevokeRow(t, fault) => RevokeRowKeepsInv(s, t, fault);
    case FinishRemove(t) => FinishRemoveKeepsInv(s, t);
    case Restart(order, corrupt) => RestartKeepsInv(s, order, corrupt);
    case SetRow(id, state) => SetRowKeepsInv(s, id, state);
    case FinishRow(t, id, fault) => FinishRowKeepsInv(s, t, id, fault);
  }

  lemma {:induction false} EveryInterleavingKeepsInv(s: System, steps: seq<Step>)
    requires Inv(s) && Legal(s, steps)
    ensures Inv(RunAll(s, steps))
    decreases |steps|
  {
    if steps == [] {
    } else {
      StepKeepsInv(s, steps[0]);
      EveryInterleavingKeepsInv(Apply(s, steps[0]), steps[1..]);
    }
  }

  /** In every run a build is never queued twice, nor queued while active or in a call's hands, and none is anywhere else. */
  lemma NeverInTwoPlaces(steps: seq<Step>)
    requires Legal(Empty(), steps)
    ensures var s := RunAll(Empty(), steps); OnePlace(s) && LanesOk(s.lanes, s.rows)
  {
    EveryInterleavingKeepsInv(Empty(), steps);
  }

  // --- Gone, revoked, recovered ---

  predicate NoRestart(steps: seq<Step>) {
    forall i :: 0 <= i < |steps| ==> !steps[i].Restart?
  }

  lemma GoneStays(s: System, step: Step)
    requires Enabled(s, step) && !step.Restart?
    ensures s.gone <= Apply(s, step).gone
  {
  }

  /** Until a restart, a build that is gone never waits, runs or is held again. */
  lemma {:induction false} GoneForGood(s: System, steps: seq<Step>, id: Id)
    requires Inv(s) && Legal(s, steps) && NoRestart(steps) && id in s.gone
    ensures var end := RunAll(s, steps);
      id in end.gone && id !in Ids(end.lanes) && id !in end.active && id !in end.held
    decreases |steps|
  {
    if steps == [] {
    } else {
      assert !steps[0].Restart?;
      GoneStays(s, steps[0]);
      StepKeepsInv(s, steps[0]);
      GoneForGood(Apply(s, steps[0]), steps[1..], id);
    }
  }

  ghost predicate Back(s: System, id: Id) {
    id in Ids(s.lanes) || id in s.active
  }

  /** In no run, over any number of restarts, does the build wait or run. */
  ghost predicate NeverRunsAgain(s: System, id: Id) {
    forall steps :: Legal(s, steps) ==> !Back(RunAll(s, steps), id)
  }

  /** This process no longer has the build, and its row would not bring it back. */
  predicate Buried(s: System, id: Id) {
    id in s.gone && id in s.rows && !s.rows[id].state.Queued?
  }

  lemma BuriedStays(s: System, step: Step, id: Id)
    requires Enabled(s, step) && Buried(s, id) && id !in s.held
    requires Next(s.lanes).Some? ==> Next(s.lanes).value.id != id
    ensures Buried(Apply(s, step), id)
  {
  }

  lemma StepKeepsBuried(s: System, step: Step, id: Id)
    requires Inv(s) && Enabled(s, step) && Buried(s, id)
    ensures Buried(Apply(s, step), id)
  {
    if Next(s.lanes).Some? {
      PopKeepsLanes(s.lanes, s.rows);
    }
    assert id !in s.held.Keys && id !in Ids(s.lanes);
    BuriedStays(s, step, id);
  }

  lemma {:induction false} BuriedForever(s: System, steps: seq<Step>, id: Id)
    requires Inv(s) && Legal(s, steps) && Buried(s, id)
    ensures !Back(RunAll(s, steps), id)
    decreases |steps|
  {
    if steps == [] {
    } else {
      StepKeepsBuried(s, steps[0], id);
      StepKeepsInv(s, steps[0]);
      BuriedForever(Apply(s, steps[0]), steps[1..], id);
    }
  }

  /** A held build can go back to the queue. */
  lemma HeldComesBack(s: System, id: Id) returns (steps: seq<Step>)
    requires Inv(s) && id in s.held
    ensures Legal(s, steps) && Back(RunAll(s, steps), id)
  {
    assert id in s.held.Keys;
    if s.held[id].phase.Removed? {
      var mid := Apply(s, RollbackRow(id, false));
      StepKeepsInv(s, RollbackRow(id, false));
      ComesBackAtOnce(mid, id, RollbackEnqueue(id));
      steps := [RollbackRow(id, false), RollbackEnqueue(id)];
      assert steps[1..] == [RollbackEnqueue(id)];
    } else {
      var step := if s.held[id].phase.Submitting? then EnqueueNew(id) else RollbackEnqueue(id);
      ComesBackAtOnce(s, id, step);
      steps := [step];
    }
  }

  lemma ComesBackAtOnce(s: System, id: Id, step: Step)
    requires Inv(s) && Enabled(s, step) && (step == EnqueueNew(id) || step == RollbackEnqueue(id))
    ensures Legal(s, [step]) && Back(RunAll(s, [step]), id)
  {
    assert id in s.held.Keys;
    OneStep(s, step);
    PushKeepsLanes(s.lanes, Build(id, s.held[id].priority), s.rows);
  }

  lemma OneStep(s: System, step: Step)
    requires Enabled(s, step)
    ensures Legal(s, [step]) && RunAll(s, [step]) == Apply(s, step)
  {
    var end := Apply(s, step);
    assert [step][1..] == [];
    assert Legal(end, []) && RunAll(end, []) == end;
  }

  /** The rows still to be read, in some order. */
  lemma {:induction false} SomeOrder(ids: set<Id>) returns (order: seq<Id>)
    ensures forall i, j :: 0 <= i < j < |order| ==> order[i] != order[j]
    ensures forall id :: id in order <==> id in ids
  {
    if ids == {} {
      order := [];
    } else {
      var id :| id in ids;
      var rest := SomeOrder(ids - {id});
      order := rest + [id];
    }
  }

  lemma RestartBringsBack(s: System, id: Id) returns (steps: seq<Step>)
    requires id in s.rows && s.rows[id].state.Queued?
    ensures Legal(s, steps) && Back(RunAll(s, steps), id)
  {
    var order := SomeOrder(set x | x in s.rows && s.rows[x].state.Queued?);
    steps := [Restart(order, {})];
    assert forall i :: 0 <= i < |order| ==> order[i] in order;
    OneStep(s, Restart(order, {}));
    RestartKeepsInv(s, order, {});
  }

  /** A build that is not waiting or running never will again, over all restarts, iff it is gone and its row is not queued. */
  lemma BuriedIsExact(s: System, id: Id)
    requires Inv(s) && id in s.rows
    ensures NeverRunsAgain(s, id) <==> Buried(s, id)
  {
    if Buried(s, id) {
      forall steps | Legal(s, steps)
        ensures !Back(RunAll(s, steps), id)
      {
        BuriedForever(s, steps, id);
      }
    } else if id in s.held {
      var steps := HeldComesBack(s, id);
    } else if id in s.gone {
      var steps := RestartBringsBack(s, id);
    } else {
      assert id in s.rows.Keys;
      assert Legal(s, []) && RunAll(s, []) == s;
    }
  }

  /**
   Revoking a build whose row was read as queued keeps it from ever running again if and only if
   the build was in the queue when it was to be removed, or gone already, and the row was
   written. One that a call held, or that was sent out meanwhile, is revoked on paper only, and
   a row that stays queued brings the build back with the next restart.
   */
  lemma RevocationIsFinal(s: System, t: Token, fault: bool)
    requires Inv(s) && Enabled(s, RevokeRemove(t))
    ensures var id, removed := s.revoking[t].id, Apply(s, RevokeRemove(t));
      && id in s.rows && Enabled(removed, RevokeRow(t, fault))
      && (NeverRunsAgain(Apply(removed, RevokeRow(t, fault)), id) <==>
          (id in Ids(s.lanes) || id in s.gone) && !(fault && s.rows[id].state.Queued?))
  {
    var id, removed := s.revoking[t].id, Apply(s, RevokeRemove(t));
    StepKeepsInv(s, RevokeRemove(t));
    StepKeepsInv(removed, RevokeRow(t, fault));
    BuriedIsExact(Apply(removed, RevokeRow(t, fault)), id);
  }

  /** A server that stops between the two steps of the revocation forgets it: the row still says queued. */
  lemma StoppedRevocationIsForgotten(s: System, t: Token)
    requires Inv(s) && Enabled(s, RevokeRemove(t))
    ensures var id := s.revoking[t].id;
      NeverRunsAgain(Apply(s, RevokeRemove(t)), id) <==> (id in Ids(s.lanes) || id in s.gone) && !s.rows[id].state.Queued?
  {
    StepKeepsInv(s, RevokeRemove(t));
    BuriedIsExact(Apply(s, RevokeRemove(t)), s.revoking[t].id);
  }

  /** The run leads from s to `end`. */
  ghost predicate Leads(s: System, steps: seq<Step>, end: System) {
    Legal(s, steps) && RunAll(s, steps) == end
  }

  lemma {:induction false} Compose(s: System, first: seq<Step>, mid: System, second: seq<Step>, end: System)
    requires Leads(s, first, mid) && Leads(mid, second, end)
    ensures Leads(s, first + second, end)
    decreases |first|
  {
    if first == [] {
      assert first + second == second;
    } else {
      assert (first + second)[1..] == first[1..] + second;
      Compose(Apply(s, first[0]), first[1..], mid, second, end);
    }
  }

  lemma TwoSteps(s: System, a: Step, mid: System, b: Step, end: System)
    requires Enabled(s, a) && Apply(s, a) == mid && Enabled(mid, b) && Apply(mid, b) == end
    ensures Leads(s, [a, b], end)
  {
    OneStep(s, a);
    OneStep(mid, b);
    Compose(s, [a], mid, [b], end);
    assert [a] + [b] == [a, b];
  }

  /** Where the build and its row are while only this build is known. */
  function Alone(id: Id, lane: seq<Build>, active: map<Id, Priority>, held: map<Id, Held>, state: RowState,
                 revoking: map<Token, Revocation>): System {
    System(Lanes([], lane, []), active, held, {}, map[id := Row(state, Normal)], map[], revoking)
  }

  lemma SubmitAlone(id: Id)
    ensures Leads(Empty(), [Insert(id, Normal), EnqueueNew(id)], Alone(id, [Build(id, Normal)], map[], map[], Queued, map[]))
  {
    var none: seq<Build> := [];
    assert none + [Build(id, Normal)] == [Build(id, Normal)];
    TwoSteps(
      Empty(), Insert(id, Normal),
      Alone(id, [], map[], map[id := Held(Normal, Submitting)], Queued, map[]), EnqueueNew(id),
      Alone(id, [Build(id, Normal)], map[], map[], Queued, map[]));
  }

  lemma SendAlone(id: Id)
    ensures Leads(
      Alone(id, [Build(id, Normal)], map[], map[], Queued, map[]), [Dispatch(Sent), RollbackRemove(id)],
      Alone(id, [], map[], map[id := Held(Normal, Removed)], Dispatched, map[]))
  {
    assert [Build(id, Normal)][1..] == [];
    TwoSteps(
      Alone(id, [Build(id, Normal)], map[], map[], Queued, map[]), Dispatch(Sent),
      Alone(id, [], map[id := Normal], map[], Dispatched, map[]), RollbackRemove(id),
      Alone(id, [], map[], map[id := Held(Normal, Removed)], Dispatched, map[]));
  }

  lemma ReadAlone(id: Id)
    ensures Leads(
      Alone(id, [], map[], map[id := Held(Normal, Removed)], Dispatched, map[]), [RollbackRow(id, false), RevokeRead(0, id)],
      Alone(id, [], map[], map[id := Held(Normal, RowReset)], Queued, map[0 := Revocation(id, false)]))
  {
    TwoSteps(
      Alone(id, [], map[], map[id := Held(Normal, Removed)], Dispatched, map[]), RollbackRow(id, false),
      Alone(id, [], map[], map[id := Held(Normal, RowReset)], Queued, map[]), RevokeRead(0, id),
      Alone(id, [], map[], map[id := Held(Normal, RowReset)], Queued, map[0 := Revocation(id, false)]));
  }

  lemma RevokeAlone(id: Id)
    ensures Leads(
      Alone(id, [], map[], map[id := Held(Normal, RowReset)], Queued, map[0 := Revocation(id, false)]),
      [RevokeRemove(0), RevokeRow(0, false)],
      Alone(id, [], map[], map[id := Held(Normal, RowReset)], Terminal, map[]))
  {
    TwoSteps(
      Alone(id, [], map[], map[id := Held(Normal, RowReset)], Queued, map[0 := Revocation(id, false)]), RevokeRemove(0),
      Alone(id, [], map[], map[id := Held(Normal, RowReset)], Queued, map[0 := Revocation(id, true)]), RevokeRow(0, false),
      Alone(id, [], map[], map[id := Held(Normal, RowReset)], Terminal, map[]));
  }

  lemma RequeueAlone(id: Id)
    ensures Leads(
      Alone(id, [], map[], map[id := Held(Normal, RowReset)], Terminal, map[]), [RollbackEnqueue(id), Dispatch(Sent)],
      Alone(id, [], map[id := Normal], map[], Dispatched, map[]))
  {
    var none: seq<Build> := [];
    assert [Build(id, Normal)] + none == [Build(id, Normal)] && [Build(id, Normal)][1..] == none;
    TwoSteps(
      Alone(id, [], map[], map[id := Held(Normal, RowReset)], Terminal, map[]), RollbackEnqueue(id),
      Alone(id, [Build(id, Normal)], map[], map[], Terminal, map[]), Dispatch(Sent),
      Alone(id, [], map[id := Normal], map[], Dispatched, map[]));
  }

  /** A revocation that meets a rollback between its row and its queue entry, up to its answer. */
  function RevokedWhileHeld(id: Id): seq<Step> {
    [Insert(id, Normal), EnqueueNew(id)] + [Dispatch(Sent), RollbackRemove(id)]
    + [RollbackRow(id, false), RevokeRead(0, id)] + [RevokeRemove(0), RevokeRow(0, false)]
  }

  /** From an empty server: a build whose revocation was answered and written is sent to a worker again. */
  lemma RevokedRunsAgain(id: Id)
    ensures var revoked := Alone(id, [], map[], map[id := Held(Normal, RowReset)], Terminal, map[]);
      && Leads(Empty(), RevokedWhileHeld(id), revoked)
      && Leads(revoked, [RollbackEnqueue(id), Dispatch(Sent)], Alone(id, [], map[id := Normal], map[], Dispatched, map[]))
  {
    var queued := Alone(id, [Build(id, Normal)], map[], map[], Queued, map[]);
    var removed := Alone(id, [], map[], map[id := Held(Normal, Removed)], Dispatched, map[]);
    var read := Alone(id, [], map[], map[id := Held(Normal, RowReset)], Queued, map[0 := Revocation(id, false)]);
    var revoked := Alone(id, [], map[], map[id := Held(Normal, RowReset)], Terminal, map[]);
    var first := [Insert(id, Normal), EnqueueNew(id)];
    SubmitAlone(id);
    SendAlone(id);
    Compose(Empty(), first, queued, [Dispatch(Sent), RollbackRemove(id)], removed);
    var second := first + [Dispatch(Sent), RollbackRemove(id)];
    ReadAlone(id);
    Compose(Empty(), second, removed, [RollbackRow(id, false), RevokeRead(0, id)], read);
    RevokeAlone(id);
    Compose(Empty(), second + [RollbackRow(id, false), RevokeRead(0, id)], read, [RevokeRemove(0), RevokeRow(0, false)], revoked);
    RequeueAlone(id);
  }

  /** After recovery the rows and the queue agree: queued means waiting, anything else is terminal. */
  lemma RecoveryAgreesWithRows(s: System, order: seq<Id>, corrupt: set<Id>)
    requires ReadsQueued(s.rows, order, corrupt)
    ensures var s' := Apply(s, Restart(order, corrupt));
      forall id :: id in s'.rows ==>
        if s'.rows[id].state.Queued? then id in Ids(s'.lanes) else s'.rows[id].state.Terminal? && id in s'.gone
  {
    RestartKeepsInv(s, order, corrupt);
  }

  /**
   The build popped when the dispatch row cannot be written is lost to this process; a restart
   brings it back iff its row still says queued and can be read.
   */
  lemma LostUntilRestart(s: System, b: Build, steps: seq<Step>, order: seq<Id>, corrupt: set<Id>)
    requires Inv(s) && Next(s.lanes) == Some(b)
    requires var lost := Apply(s, Dispatch(RowFault));
      Legal(lost, steps) && NoRestart(steps) && ReadsQueued(RunAll(lost, steps).rows, order, corrupt)
    ensures var end := RunAll(Apply(s, Dispatch(RowFault)), steps);
      && !Back(end, b.id) && b.id in end.rows
      && (b.id in Ids(Apply(end, Restart(order, corrupt)).lanes) <==> end.rows[b.id].state.Queued? && b.id !in corrupt)
  {
    var lost := Apply(s, Dispatch(RowFault));
    StepKeepsInv(s, Dispatch(RowFault));
    GoneForGood(lost, steps, b.id);
    EveryInterleavingKeepsInv(lost, steps);
    RestartKeepsInv(RunAll(lost, steps), order, corrupt);
  }

  // --- Order within a priority ---

  /** In one lane x stands before y. */
  predicate AheadIn(lane: seq<Build>, x: Id, y: Id) {
    exists i, j :: 0 <= i < j < |lane| && lane[i].id == x && lane[j].id == y
  }

  ghost predicate Ahead(l: Lanes, x: Id, y: Id) {
    exists p :: AheadIn(Lane(l, p), x, y)
  }

  lemma AheadAfterPush(lane: seq<Build>, b: Build, x: Id, y: Id)
    requires AheadIn(lane, x, y)
    ensures AheadIn(lane + [b], x, y) && AheadIn([b] + lane, x, y)
  {
    var i, j :| 0 <= i < j < |lane| && lane[i].id == x && lane[j].id == y;
    assert (lane + [b])[i].id == x && (lane + [b])[j].id == y;
    assert ([b] + lane)[i + 1].id == x && ([b] + lane)[j + 1].id == y;
  }

  /** Taking out another build leaves the two in their order. */
  lemma AheadAfterTake(lane: seq<Build>, at: nat, x: Id, y: Id)
    requires AheadIn(lane, x, y) && at < |lane| && lane[at].id != x && lane[at].id != y
    ensures AheadIn(lane[..at] + lane[at + 1..], x, y)
  {
    var i, j :| 0 <= i < j < |lane| && lane[i].id == x && lane[j].id == y;
    var rest := lane[..at] + lane[at + 1..];
    assert rest[if i < at then i else i - 1].id == x;
    assert rest[if j < at then j else j - 1].id == y;
  }

  lemma AheadIsWaiting(l: Lanes, x: Id, y: Id)
    requires Ahead(l, x, y)
    ensures x in Ids(l) && y in Ids(l)
  {
    var p :| AheadIn(Lane(l, p), x, y);
    LaneIdHasPlace(Lane(l, p), x);
    LaneIdHasPlace(Lane(l, p), y);
  }

  lemma PushKeepsAhead(l: Lanes, b: Build, x: Id, y: Id)
    requires Ahead(l, x, y)
    ensures Ahead(PushBack(l, b), x, y) && Ahead(PushFront(l, b), x, y)
  {
    var p :| AheadIn(Lane(l, p), x, y);
    if p == b.priority {
      AheadAfterPush(Lane(l, p), b, x, y);
    }
    assert AheadIn(Lane(PushBack(l, b), p), x, y);
    assert AheadIn(Lane(PushFront(l, b), p), x, y);
  }

  lemma AheadAfterPop(lane: seq<Build>, p: Priority, rows: map<Id, Row>, x: Id, y: Id)
    requires LaneOk(lane, p, rows) && AheadIn(lane, x, y)
    ensures lane != [] && lane[0].id != y && (lane[0].id != x ==> AheadIn(lane[1..], x, y))
  {
    LaterIsNotFirst(lane, p, rows, x, y);
    if lane[0].id != x {
      AheadAfterTake(lane, 0, x, y);
      assert lane[..0] + lane[1..] == lane[1..];
    }
  }

  lemma HeadOfOtherLane(l: Lanes, rows: map<Id, Row>, p: Priority, q: Priority, y: Id)
    requires LanesOk(l, rows) && p != q && Lane(l, q) != [] && InLane(Lane(l, p), y)
    ensures Lane(l, q)[0].id != y
  {
    LaneIdHasPlace(Lane(l, p), y);
    LaneHasRows(Lane(l, p), p, rows, y);
    LaneIdHasPlace(Lane(l, q), Lane(l, q)[0].id);
    LaneHasRows(Lane(l, q), q, rows, Lane(l, q)[0].id);
  }

  function HeadLane(l: Lanes): Priority {
    if l.high != [] then High else if l.normal != [] then Normal else Low
  }

  lemma PopOneLane(l: Lanes)
    requires Next(l).Some?
    ensures var q := HeadLane(l);
      && Lane(l, q) != [] && Next(l).value == Lane(l, q)[0] && Lane(PopNext(l), q) == Lane(l, q)[1..]
      && forall p :: p != q ==> Lane(PopNext(l), p) == Lane(l, p)
  {
  }

  /** The head of the queue is never the later of the two, and unless it is the earlier they stay in order. */
  lemma PopKeepsAhead(l: Lanes, rows: map<Id, Row>, x: Id, y: Id)
    requires LanesOk(l, rows) && Next(l).Some? && Ahead(l, x, y)
    ensures Next(l).value.id != y && (Next(l).value.id != x ==> Ahead(PopNext(l), x, y))
  {
    var p :| AheadIn(Lane(l, p), x, y);
    PopOneLane(l);
    if p == HeadLane(l) {
      AheadAfterPop(Lane(l, p), p, rows, x, y);
    } else {
      HeadOfOtherLane(l, rows, p, HeadLane(l), y);
      assert AheadIn(Lane(PopNext(l), p), x, y);
    }
  }

  lemma LaterIsNotFirst(lane: seq<Build>, p: Priority, rows: map<Id, Row>, x: Id, y: Id)
    requires LaneOk(lane, p, rows) && AheadIn(lane, x, y)
    ensures lane[0].id != y
  {
    var i, j :| 0 <= i < j < |lane| && lane[i].id == x && lane[j].id == y;
    TailOfLane(lane, p, rows);
    assert lane[1..][j - 1].id == y;
    LaneIdHasPlace(lane[1..], y);
  }

  lemma AheadWithout(lane: seq<Build>, id: Id, x: Id, y: Id)
    requires AheadIn(lane, x, y) && id != x && id != y
    ensures AheadIn(Without(lane, id), x, y)
  {
    PositionFinds(lane, id, 0);
    if Position(lane, id, 0) < |lane| {
      AheadAfterTake(lane, Position(lane, id, 0), x, y);
    }
  }

  lemma RemoveOneLane(l: Lanes, id: Id, p: Priority)
    ensures Lane(RemoveSpec(l, id), p) == Lane(l, p) || Lane(RemoveSpec(l, id), p) == Without(Lane(l, p), id)
  {
  }

  lemma RemoveKeepsAhead(l: Lanes, id: Id, x: Id, y: Id)
    requires Ahead(l, x, y) && id != x && id != y
    ensures Ahead(RemoveSpec(l, id), x, y)
  {
    var p :| AheadIn(Lane(l, p), x, y);
    AheadWithout(Lane(l, p), id, x, y);
    RemoveOneLane(l, id, p);
    assert AheadIn(Lane(RemoveSpec(l, id), p), x, y);
  }

  lemma RevokeKeepsOrder(s: System, t: Token, x: Id, y: Id)
    requires Inv(s) && Enabled(s, RevokeRemove(t)) && Ahead(s.lanes, x, y)
    requires x in Ids(Apply(s, RevokeRemove(t)).lanes)
    ensures Ahead(Apply(s, RevokeRemove(t)).lanes, x, y) || y in Apply(s, RevokeRemove(t)).gone
  {
    var id := s.revoking[t].id;
    AheadIsWaiting(s.lanes, x, y);
    RemoveKeepsLanes(s.lanes, id, s.rows);
    if id != y {
      RemoveKeepsAhead(s.lanes, id, x, y);
    }
  }

  lemma DispatchKeepsOrder(s: System, outcome: Outcome, x: Id, y: Id)
    requires Inv(s) && Ahead(s.lanes, x, y) && x in Ids(Apply(s, Dispatch(outcome)).lanes)
    ensures Ahead(Apply(s, Dispatch(outcome)).lanes, x, y)
  {
    if Next(s.lanes).Some? {
      PopKeepsLanes(s.lanes, s.rows);
      PopKeepsAhead(s.lanes, s.rows, x, y);
    }
  }

  /** A step leaves two builds of one lane in their order while the earlier waits; the later leaves only by being revoked. */
  lemma StepKeepsOrder(s: System, step: Step, x: Id, y: Id)
    requires Inv(s) && Enabled(s, step) && !step.Restart? && Ahead(s.lanes, x, y) && x in Ids(Apply(s, step).lanes)
    ensures Ahead(Apply(s, step).lanes, x, y) || (step.RevokeRemove? && y in Apply(s, step).gone)
  {
    match step
    case EnqueueNew(id) => PushKeepsAhead(s.lanes, Build(id, s.held[id].priority), x, y);
    case RollbackEnqueue(id) => PushKeepsAhead(s.lanes, Build(id, s.held[id].priority), x, y);
    case RevokeRemove(t) => RevokeKeepsOrder(s, t, x, y);
    case Dispatch(outcome) => DispatchKeepsOrder(s, outcome, x, y);
    case _ =>
  }

  /** The build waits in every state of the run. */
  ghost predicate KeepsWaiting(s: System, steps: seq<Step>, x: Id)
    requires Legal(s, steps)
    decreases |steps|
  {
    x in Ids(s.lanes) && (steps == [] || KeepsWaiting(Apply(s, steps[0]), steps[1..], x))
  }

  lemma AheadIsNotActive(s: System, x: Id, y: Id)
    requires Inv(s) && Ahead(s.lanes, x, y)
    ensures y !in s.active
  {
    AheadIsWaiting(s.lanes, x, y);
    assert y !in s.active.Keys;
  }

  /** While a build waits, none that stands behind it in its lane is sent out, whatever else is enqueued, revoked or rolled back. */
  lemma {:induction false} NoOvertaking(s: System, steps: seq<Step>, x: Id, y: Id)
    requires Inv(s) && Legal(s, steps) && NoRestart(steps) && KeepsWaiting(s, steps, x)
    requires Ahead(s.lanes, x, y)
    ensures y !in RunAll(s, steps).active
    decreases |steps|
  {
    if steps == [] {
      AheadIsNotActive(s, x, y);
    } else {
      var s' := Apply(s, steps[0]);
      assert !steps[0].Restart?;
      StepKeepsOrder(s, steps[0], x, y);
      StepKeepsInv(s, steps[0]);
      if Ahead(s'.lanes, x, y) {
        NoOvertaking(s', steps[1..], x, y);
      } else {
        GoneForGood(s', steps[1..], y);
      }
    }
  }

  /** A new build stands behind every build of its priority. */
  lemma NewGoesLast(s: System, id: Id, x: Id)
    requires Inv(s) && Enabled(s, EnqueueNew(id)) && x in LaneIds(Lane(s.lanes, s.held[id].priority))
    ensures Ahead(Apply(s, EnqueueNew(id)).lanes, x, id)
  {
    var p := s.held[id].priority;
    var lane, b := Lane(s.lanes, p), Build(id, s.held[id].priority);
    LaneIdHasPlace(lane, x);
    var i :| 0 <= i < |lane| && lane[i].id == x;
    assert (lane + [b])[i].id == x && (lane + [b])[|lane|].id == id;
    assert AheadIn(Lane(Apply(s, EnqueueNew(id)).lanes, p), x, id);
  }

  /** A build that is rolled back stands first in its lane. */
  lemma RolledBackGoesFirst(s: System, id: Id)
    requires Enabled(s, RollbackEnqueue(id))
    ensures var lane := Lane(Apply(s, RollbackEnqueue(id)).lanes, s.held[id].priority);
      lane != [] && lane[0].id == id && lane[1..] == Lane(s.lanes, s.held[id].priority)
  {
  }

  /** Without a worker for the head of the queue nothing changes. */
  lemma NoWorkerChangesNothing(s: System)
    requires Inv(s)
    ensures Apply(s, Dispatch(NoWorker)) == s
  {
    if Next(s.lanes).Some? {
      PopKeepsLanes(s.lanes, s.rows);
    }
  }

  function OfPriority(rows: map<Id, Row>, order: seq<Id>, n: nat, p: Priority): seq<Build>
    requires n <= |order| && forall i :: 0 <= i < |order| ==> order[i] in rows
  {
    if n == 0 then []
    else if rows[order[n - 1]].priority == p then OfPriority(rows, order, n - 1, p) + [Build(order[n - 1], p)]
    else OfPriority(rows, order, n - 1, p)
  }

  /** Recovery fills each lane with the rows of its priority, in the order read. */
  lemma {:induction false} RefillKeepsOrder(rows: map<Id, Row>, order: seq<Id>, n: nat, p: Priority)
    requires n <= |order| && forall i :: 0 <= i < |order| ==> order[i] in rows
    ensures Lane(Refill(rows, order, n), p) == OfPriority(rows, order, n, p)
  {
    if n == 0 {
    } else {
      RefillKeepsOrder(rows, order, n - 1, p);
    }
  }

  // --- Sent out, finished ---

  /** The row of a build that is active does not say queued. */
  ghost predicate ActiveRowsOk(s: System) {
    forall id :: id in s.active ==> id in s.rows && !s.rows[id].state.Queued?
  }

  /** Outside dispatching and rollback no row of an active build becomes queued. */
  lemma ActiveRowsStay(s: System, step: Step)
    requires Enabled(s, step) && ActiveRowsOk(s) && !step.Dispatch? && !step.RollbackRow?
    ensures ActiveRowsOk(Apply(s, step))
  {
  }

  lemma DispatchedRowIsNotQueued(s: System, outcome: Outcome)
    requires ActiveRowsOk(s) && (Next(s.lanes).Some? ==> Next(s.lanes).value.id in s.rows)
    ensures ActiveRowsOk(Apply(s, Dispatch(outcome)))
  {
  }

  lemma StepKeepsActiveRows(s: System, step: Step)
    requires Inv(s) && Enabled(s, step) && ActiveRowsOk(s)
    ensures ActiveRowsOk(Apply(s, step))
  {
    if Next(s.lanes).Some? {
      PopKeepsLanes(s.lanes, s.rows);
    }
    assert forall id :: id in s.active.Keys ==> id !in s.held.Keys;
    if step.Dispatch? {
      DispatchedRowIsNotQueued(s, step.outcome);
    } else if !step.RollbackRow? {
      ActiveRowsStay(s, step);
    }
  }

  lemma {:induction false} RunKeepsActiveRows(s: System, steps: seq<Step>)
    requires Inv(s) && Legal(s, steps) && ActiveRowsOk(s)
    ensures Inv(RunAll(s, steps)) && ActiveRowsOk(RunAll(s, steps))
    decreases |steps|
  {
    if steps == [] {
    } else {
      StepKeepsActiveRows(s, steps[0]);
      StepKeepsInv(s, steps[0]);
      RunKeepsActiveRows(Apply(s, steps[0]), steps[1..]);
    }
  }

  /** A build that is active when the server stops is never run again: recovery fails it, in every run. */
  lemma StoppedWhileActive(steps: seq<Step>, order: seq<Id>, corrupt: set<Id>, id: Id)
    requires Legal(Empty(), steps) && id in RunAll(Empty(), steps).active
    requires ReadsQueued(RunAll(Empty(), steps).rows, order, corrupt)
    ensures var up := Apply(RunAll(Empty(), steps), Restart(order, corrupt));
      id in up.rows && up.rows[id].state.Terminal? && NeverRunsAgain(up, id)
  {
    var s := RunAll(Empty(), steps);
    RunKeepsActiveRows(Empty(), steps);
    StepKeepsInv(s, Restart(order, corrupt));
    BuriedIsExact(Apply(s, Restart(order, corrupt)), id);
  }

  /**
   A finish reported for a build keeps it from ever running again if and only if the build was
   active, or gone already, and its row does not stay queued because the write failed.
   */
  lemma FinishIsFinal(s: System, t: Token, id: Id, fault: bool)
    requires Inv(s) && Enabled(s, FinishRow(t, id, fault))
    ensures var reported := Apply(s, FinishRow(t, id, fault));
      && Enabled(reported, FinishRemove(t))
      && (NeverRunsAgain(Apply(reported, FinishRemove(t)), id) <==>
          (id in s.active || id in s.gone) && !(fault && s.rows[id].state.Queued?))
  {
    var reported := Apply(s, FinishRow(t, id, fault));
    StepKeepsInv(s, FinishRow(t, id, fault));
    StepKeepsInv(reported, FinishRemove(t));
    BuriedIsExact(Apply(reported, FinishRemove(t)), id);
  }

  /** Once a worker reports a build started, or its revocation was sent out, it is not revoked as a queued one. */
  lemma StartedIsNotQueued(s: System, t: Token, id: Id, state: RowState)
    requires Enabled(s, SetRow(id, state))
    ensures !Enabled(Apply(s, SetRow(id, state)), RevokeRead(t, id)) && Apply(s, SetRow(id, state)).rows[id].state == state
  {
  }

  /** A submission that fails after its row was inserted is not enqueued; only a restart can bring it to the queue. */
  lemma AbandonedUntilRestart(s: System, id: Id, steps: seq<Step>)
    requires Inv(s) && Enabled(s, AbandonSubmission(id))
    requires Legal(Apply(s, AbandonSubmission(id)), steps) && NoRestart(steps)
    ensures !Back(RunAll(Apply(s, AbandonSubmission(id)), steps), id)
  {
    StepKeepsInv(s, AbandonSubmission(id));
    GoneForGood(Apply(s, AbandonSubmission(id)), steps, id);
  }
}
