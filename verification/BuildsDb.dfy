/**
 The builds database of `cbsd/cbslib/builds/db.py`: one record per build and a root record
 holding the last build id. The file is a map; each write can fail and leaves the file as it
 was. A record that does not parse is Malformed.
 */
module BuildsDb {
  import opened Wrappers

  datatype EntryState = New | Pending | Started | Retry | Failure | Success | Revoked | Rejected

  predicate Terminal(s: EntryState) {
    s.Success? || s.Failure? || s.Revoked? || s.Rejected?
  }

  /** A build entry, without its descriptor, which no operation looks into. */
  datatype Entry = Entry(
    taskId: Option<string>, user: string, submitted: int,
    state: EntryState, started: Option<int>, finished: Option<int>)

  datatype Record = Good(entry: Entry) | Malformed

  /** Records and root record in the file, and the id counter in memory. */
  datatype Db = Db(records: map<int, Record>, root: Option<int>, last: int)

  datatype DbError = NoSuchBuild | MalformedEntry | MalformedRoot | Storage

  /** Which of the two writes of `new` fails. */
  datatype SaveFault = NoFault | EntryFault | RootFault

  function Persisted(root: Option<int>): int {
    if root.Some? then root.value else 0
  }

  /** The root record as stored. */
  datatype RootRecord = NoRoot | GoodRoot(last: int) | BadRoot

  /** A database opened on an existing file. */
  function Load(records: map<int, Record>, root: Option<int>): Db {
    Db(records, root, Persisted(root))
  }

  /** The counter moves first, then the record is written, then the root. */
  function NewSpec(db: Db, entry: Entry, fault: SaveFault): (Db, Option<int>) {
    var id := db.last + 1;
    match fault
    case EntryFault => (db.(last := id), None)
    case RootFault => (db.(last := id, records := db.records[id := Good(entry)]), None)
    case NoFault => (Db(db.records[id := Good(entry)], Some(id), id), Some(id))
  }

  /** A missing record is a storage error here and NoSuchBuild in `get`. */
  function UpdateSpec(db: Db, id: int, entry: Entry, fault: bool): Result<Db, DbError> {
    if id < 1 || id > db.last || id !in db.records then Err(Storage)
    else if db.records[id].Malformed? then Err(MalformedEntry)
    else if fault then Err(Storage)
    else Ok(db.(records := db.records[id := Good(entry)]))
  }

  function GetSpec(db: Db, id: int, fault: bool): Result<Entry, DbError> {
    if id < 1 || id > db.last then Err(NoSuchBuild)
    else if fault then Err(Storage)
    else if id !in db.records then Err(NoSuchBuild)
    else match db.records[id]
      case Malformed => Err(MalformedEntry)
      case Good(entry) => Ok(entry)
  }

  /** What was stored is read back, and every other build as before. */
  lemma UpdateThenGet(db: Db, id: int, entry: Entry, other: int)
    requires UpdateSpec(db, id, entry, false).Ok?
    ensures var after := UpdateSpec(db, id, entry, false).value;
      && GetSpec(after, id, false) == Ok(entry)
      && (other != id ==> GetSpec(after, other, false) == GetSpec(db, other, false))
  {
  }

  lemma CreateThenGet(db: Db, entry: Entry, other: int)
    requires db.last >= 0
    ensures var (after, id) := NewSpec(db, entry, NoFault);
      && id.Some? && GetSpec(after, id.value, false) == Ok(entry)
      && (other < id.value ==> GetSpec(after, other, false) == GetSpec(db, other, false))
  {
  }

  /** A creation that fails uses its id up; the record is there iff the second write was the one that failed, and the root is not moved. */
  lemma FailedCreate(db: Db, entry: Entry, fault: SaveFault)
    requires fault != NoFault
    ensures var (after, id) := NewSpec(db, entry, fault);
      && id.None? && after.last == db.last + 1 && after.root == db.root
      && after.records == if fault == RootFault then db.records[db.last + 1 := Good(entry)] else db.records
  {
  }

  /** A read fails for an id out of range or without record, for a file that cannot be read and for a record that does not parse. */
  lemma GetRefusals(db: Db, id: int, fault: bool)
    ensures GetSpec(db, id, fault) == Err(NoSuchBuild) <==> !(1 <= id <= db.last) || (!fault && id !in db.records)
    ensures GetSpec(db, id, fault) == Err(Storage) <==> 1 <= id <= db.last && fault
    ensures GetSpec(db, id, fault) == Err(MalformedEntry)
      <==> 1 <= id <= db.last && !fault && id in db.records && db.records[id].Malformed?
  {
  }

  /** An update is refused exactly for an unknown build, a record that does not parse and a write that fails. */
  lemma UpdateRefusals(db: Db, id: int, entry: Entry, fault: bool)
    ensures UpdateSpec(db, id, entry, fault).Ok? <==> GetSpec(db, id, false).Ok? && !fault
    ensures UpdateSpec(db, id, entry, fault) == Err(MalformedEntry) <==> GetSpec(db, id, false) == Err(MalformedEntry)
  {
  }

  /** The record garbage collection leaves in place of `r`: unfinished entries fail, finish time untouched. */
  function Collected(r: Record): Record {
    if r.Good? && !Terminal(r.entry.state) then Good(r.entry.(state := Failure)) else r
  }

  /** Records 1..n collected, the rest as they were. */
  function CollectUpTo(records: map<int, Record>, n: int): map<int, Record> {
    map id | id in records :: if 1 <= id <= n then Collected(records[id]) else records[id]
  }

  /** After a full pass every well-formed entry in range is terminal, nothing else changed, and a second pass is a no-op. */
  lemma CollectIsComplete(db: Db)
    ensures var after := CollectUpTo(db.records, db.last);
      && after.Keys == db.records.Keys
      && (forall id :: id in after && 1 <= id <= db.last && after[id].Good? ==> Terminal(after[id].entry.state))
      && (forall id :: id in after && after[id] != db.records[id] ==>
           1 <= id <= db.last && db.records[id].Good? && !Terminal(db.records[id].entry.state)
           && after[id] == Good(db.records[id].entry.(state := Failure)))
      && CollectUpTo(after, db.last) == after
      && (forall id :: id in after && 1 <= id <= db.last && db.records[id].Good? ==>
           db.records[id].entry.state in {New, Pending, Started, Retry} ==> after[id].entry.state == Failure)
      && (forall id :: id in after && db.records[id].Good? ==>
           db.records[id].entry.state in {Success, Failure, Revoked, Rejected} ==> after[id] == db.records[id])
  {
    var after := CollectUpTo(db.records, db.last);
    var again := CollectUpTo(after, db.last);
    assert forall id :: id in after ==> again[id] == after[id];
  }

  predicate Holds(records: map<int, Record>, listed: (int, Entry)) {
    listed.0 in records && records[listed.0] == Good(listed.1)
  }

  class BuildsDB {
    var records: map<int, Record>
    var root: Option<int>
    var last: int

    function View(): Db
      reads this
    {
      Db(records, root, last)
    }

    constructor (records: map<int, Record>, root: Option<int>)
      ensures View() == Load(records, root)
    {
      this.records, this.root := records, root;
      this.last := if root.Some? then root.value else 0;
    }

    method Create(entry: Entry, fault: SaveFault) returns (id: Option<int>)
      modifies this
      ensures (View(), id) == NewSpec(old(View()), entry, fault)
    {
      last := last + 1;
      if fault == EntryFault {
        return None;
      }
      records := records[last := Good(entry)];
      if fault == RootFault {
        return None;
      }
      root := Some(last);
      return Some(last);
    }

    method Update(id: int, entry: Entry, fault: bool) returns (error: Option<DbError>)
      modifies this
      ensures var r := UpdateSpec(old(View()), id, entry, fault);
        if r.Ok? then error == None && View() == r.value else error == Some(r.error) && View() == old(View())
    {
      if id < 1 || id > last {
        return Some(Storage);
      }
      if id !in records {
        return Some(Storage);
      }
      if records[id].Malformed? {
        return Some(MalformedEntry);
      }
      if fault {
        return Some(Storage);
      }
      records := records[id := Good(entry)];
      return None;
    }

    method Get(id: int, fault: bool) returns (r: Result<Entry, DbError>)
      ensures r == GetSpec(View(), id, fault)
    {
      if id < 1 || id > last {
        return Err(NoSuchBuild);
      }
      if fault {
        return Err(Storage);
      }
      if id !in records {
        return Err(NoSuchBuild);
      }
      match records[id]
      case Malformed => return Err(MalformedEntry);
      case Good(entry) => return Ok(entry);
    }

    /** Garbage collection; `failsAt` is the id whose write raises, leaving the earlier ones written. */
    method Gc(failsAt: Option<int>) returns (ok: bool)
      modifies this`records
      ensures ok ==> records == CollectUpTo(old(records), last)
      ensures !ok ==> failsAt.Some? && 1 <= failsAt.value <= last && records == CollectUpTo(old(records), failsAt.value - 1)
      ensures failsAt == None ==> ok
    {
      assert records == CollectUpTo(records, 0);
      var id := 1;
      while id <= last
        invariant 1 <= id && (if last < 1 then id == 1 else id <= last + 1)
        invariant records == CollectUpTo(old(records), id - 1)
        decreases last - id
      {
        ghost var before := records;
        if id in records {
          match records[id] {
            case Malformed =>
            case Good(entry) =>
              if !Terminal(entry.state) {
                if failsAt == Some(id) {
                  return false;
                }
                records := records[id := Good(entry.(state := Failure))];
              }
          }
        }
        assert records == CollectUpTo(old(records), id);
        id := id + 1;
      }
      if last < 1 {
        assert CollectUpTo(old(records), last) == old(records) == records;
      }
      return true;
    }

    /**
     The parsable records from `start`, at most `max` ids far, or an error if the file cannot be
     read. A limit of zero means none, as no limit does; a negative one leaves nothing.
     */
    method Ls(start: int, max: Option<int>, fault: bool) returns (r: Result<seq<(int, Entry)>, DbError>)
      ensures r.Err? <==> fault
      ensures r.Err? ==> r.error == Storage
      ensures r.Ok? ==> IsListing(records, start, ListEnd(start, max, last), r.value)
    {
      var end := if max.Some? && max.value != 0 then start + max.value else last + 1;
      if end > last + 1 {
        end := last + 1;
      }
      if fault {
        return Err(Storage);
      }
      var entries: seq<(int, Entry)> := [];
      var id := start;
      while id < end
        invariant start <= id && (if start <= end then id <= end else id == start)
        invariant IsListing(records, start, id, entries)
        decreases end - id
      {
        if id in records {
          match records[id] {
            case Malformed =>
            case Good(entry) => entries := entries + [(id, entry)];
          }
        }
        id := id + 1;
      }
      return Ok(entries);
    }
  }

  function ListEnd(start: int, max: Option<int>, last: int): int {
    if max.Some? && max.value != 0 && start + max.value <= last then start + max.value else last + 1
  }

  /** Exactly the parsable records of the range, each once, in ascending order. */
  ghost predicate IsListing(records: map<int, Record>, start: int, end: int, entries: seq<(int, Entry)>) {
    && (forall i :: 0 <= i < |entries| ==> start <= entries[i].0 < end && Holds(records, entries[i]))
    && (forall i, j :: 0 <= i < j < |entries| ==> entries[i].0 < entries[j].0)
    && (forall id :: start <= id < end && id in records && records[id].Good? ==> (id, records[id].entry) in entries)
  }

  /** Opening the database: a file that cannot be read and a root that does not parse raise. */
  method Open(records: map<int, Record>, root: RootRecord, fault: bool) returns (r: Result<BuildsDB, DbError>)
    ensures fault ==> r == Err(Storage)
    ensures !fault && root.BadRoot? ==> r == Err(MalformedRoot)
    ensures !fault && root.NoRoot? ==> r.Ok? && fresh(r.value) && r.value.View() == Load(records, None)
    ensures !fault && root.GoodRoot? ==> r.Ok? && fresh(r.value) && r.value.View() == Load(records, Some(root.last))
  {
    if fault {
      return Err(Storage);
    }
    match root
    case BadRoot => return Err(MalformedRoot);
    case NoRoot =>
      var db := new BuildsDB(records, None);
      return Ok(db);
    case GoodRoot(last) =>
      var db := new BuildsDB(records, Some(last));
      return Ok(db);
  }
}
