/**
 The patch list of `cbscore/src/cbscore/builder/prepare.py`: a walk over the patches directory
 that fills one list per depth, re-sorting it after every directory, and then reads the lists
 deepest first.
 */
module Patches {
  import opened Wrappers

  type Path = seq<string>

  /** A directory entry. Any entry with the patch suffix is a patch, with its number unless the name is malformed. */
  datatype Entry = Patch(name: string, number: Option<nat>) | Dir(name: string, entries: seq<Entry>) | File(name: string)

  /** The requested version with its minor and major forms; without a major form the version is malformed. */
  datatype Version = Version(full: string, minor: Option<string>, major: Option<string>)

  datatype Error = MalformedVersion | NotADirectory

  datatype Item = Item(number: nat, path: Path)

  predicate Named(v: Version, name: string) {
    name == v.full || v.minor == Some(name) || v.major == Some(name)
  }

  /** Neither the version nor its minor form, and there is no major form to compare with. */
  predicate Undecided(v: Version, name: string) {
    !Named(v, name) && v.major.None?
  }

  // --- Stable sorting by number ---

  predicate Ascending(s: seq<Item>) {
    |s| < 2 || (s[|s| - 2].number <= s[|s| - 1].number && Ascending(s[..|s| - 1]))
  }

  lemma {:induction false} AscendingPair(s: seq<Item>, a: nat, b: nat)
    requires Ascending(s) && a < b < |s|
    ensures s[a].number <= s[b].number
    decreases |s|
  {
    if b < |s| - 1 {
      AscendingPair(s[..|s| - 1], a, b);
    } else if a < b - 1 {
      AscendingPair(s[..b], a, b - 1);
    }
  }

  /** `x` goes after the items with a number at most its own. */
  function Insert(s: seq<Item>, x: Item): seq<Item> {
    if s == [] || s[|s| - 1].number <= x.number then s + [x]
    else Insert(s[..|s| - 1], x) + [s[|s| - 1]]
  }

  function InsertAll(s: seq<Item>, t: seq<Item>): seq<Item>
    decreases |t|
  {
    if t == [] then s else Insert(InsertAll(s, t[..|t| - 1]), t[|t| - 1])
  }

  function StableSort(s: seq<Item>): seq<Item> {
    InsertAll([], s)
  }

  lemma {:induction false} InsertSorts(s: seq<Item>, x: Item)
    requires Ascending(s)
    ensures Ascending(Insert(s, x))
    ensures var t := Insert(s, x); t != [] && (t[|t| - 1] == x || (s != [] && t[|t| - 1] == s[|s| - 1]))
  {
    if s == [] || s[|s| - 1].number <= x.number {
      assert (s + [x])[..|s|] == s;
    } else {
      var front, last := s[..|s| - 1], s[|s| - 1];
      InsertSorts(front, x);
      var t := Insert(front, x);
      assert (t + [last])[..|t|] == t;
    }
  }

  lemma {:induction false} InsertAdds(s: seq<Item>, x: Item)
    ensures multiset(Insert(s, x)) == multiset(s) + multiset{x}
  {
    if s != [] && s[|s| - 1].number > x.number {
      InsertAdds(s[..|s| - 1], x);
      assert s == s[..|s| - 1] + [s[|s| - 1]];
    }
  }

  lemma {:induction false} InsertAllSorts(s: seq<Item>, t: seq<Item>)
    requires Ascending(s)
    ensures Ascending(InsertAll(s, t))
    decreases |t|
  {
    if t == [] {
    } else {
      InsertAllSorts(s, t[..|t| - 1]);
      InsertSorts(InsertAll(s, t[..|t| - 1]), t[|t| - 1]);
    }
  }

  lemma SplitLast(t: seq<Item>)
    requires t != []
    ensures multiset(t) == multiset(t[..|t| - 1]) + multiset{t[|t| - 1]}
  {
    assert t == t[..|t| - 1] + [t[|t| - 1]];
  }

  lemma {:induction false} InsertAllAdds(s: seq<Item>, t: seq<Item>)
    ensures multiset(InsertAll(s, t)) == multiset(s) + multiset(t)
    decreases |t|
  {
    if t == [] {
    } else {
      InsertAllAdds(s, t[..|t| - 1]);
      InsertAdds(InsertAll(s, t[..|t| - 1]), t[|t| - 1]);
      SplitLast(t);
    }
  }

  function WithNumber(s: seq<Item>, n: nat): seq<Item> {
    if s == [] then []
    else WithNumber(s[..|s| - 1], n) + if s[|s| - 1].number == n then [s[|s| - 1]] else []
  }

  lemma {:induction false} InsertIsStable(s: seq<Item>, x: Item, n: nat)
    ensures WithNumber(Insert(s, x), n) == WithNumber(s, n) + if x.number == n then [x] else []
  {
    if s == [] || s[|s| - 1].number <= x.number {
      assert (s + [x])[..|s|] == s;
    } else {
      var front, last := s[..|s| - 1], s[|s| - 1];
      InsertIsStable(front, x, n);
      var t := Insert(front, x);
      assert (t + [last])[..|t|] == t;
    }
  }

  lemma {:induction false} InsertAllAppend(s: seq<Item>, t: seq<Item>, u: seq<Item>)
    ensures InsertAll(s, t + u) == InsertAll(InsertAll(s, t), u)
    decreases |u|
  {
    if u == [] {
      assert t + u == t;
    } else {
      assert (t + u)[..|t + u| - 1] == t + u[..|u| - 1];
      InsertAllAppend(s, t, u[..|u| - 1]);
    }
  }

  lemma {:induction false} SortedIsFixed(s: seq<Item>)
    requires Ascending(s)
    ensures StableSort(s) == s
  {
    if s == [] {
    } else {
      SortedIsFixed(s[..|s| - 1]);
      assert s == s[..|s| - 1] + [s[|s| - 1]];
    }
  }

  lemma {:induction false} StableSortKeepsTies(s: seq<Item>, n: nat)
    ensures WithNumber(StableSort(s), n) == WithNumber(s, n)
    decreases |s|
  {
    if s == [] {
    } else {
      StableSortKeepsTies(s[..|s| - 1], n);
      InsertIsStable(StableSort(s[..|s| - 1]), s[|s| - 1], n);
    }
  }

  lemma StableSortSorts(s: seq<Item>)
    ensures Ascending(StableSort(s)) && multiset(StableSort(s)) == multiset(s)
  {
    InsertAllSorts([], s);
    InsertAllAdds([], s);
  }

  /** Re-sorting after each addition comes to the same list as sorting everything once. */
  lemma SortingAgain(s: seq<Item>, t: seq<Item>)
    ensures StableSort(StableSort(s) + t) == StableSort(s + t)
  {
    StableSortSorts(s);
    SortedIsFixed(StableSort(s));
    InsertAllAppend([], StableSort(s), t);
    InsertAllAppend([], s, t);
  }

  // --- What the walk finds ---

  /** The numbered patches `below` levels under the first `n` entries of a directory at `path`, in walking order. */
  function Found(v: Version, es: seq<Entry>, n: nat, path: Path, below: nat): seq<Item>
    requires n <= |es|
    decreases es, n
  {
    if n == 0 then [] else Found(v, es, n - 1, path, below) + FoundAt(v, es[n - 1], path, below)
  }

  function FoundAt(v: Version, e: Entry, path: Path, below: nat): seq<Item>
    decreases e, 0
  {
    match e
    case Patch(name, number) => if below == 0 && number.Some? then [Item(number.value, path + [name])] else []
    case Dir(name, es) => if below > 0 && Named(v, name) then Found(v, es, |es|, path + [name], below - 1) else []
    case File(_) => []
  }

  /** The first error the walk meets. */
  function Failure(v: Version, es: seq<Entry>, n: nat): Option<Error>
    requires n <= |es|
    decreases es, n
  {
    if n == 0 then None
    else if Failure(v, es, n - 1).Some? then Failure(v, es, n - 1)
    else FailureAt(v, es[n - 1])
  }

  function FailureAt(v: Version, e: Entry): Option<Error>
    decreases e, 0
  {
    if e.Patch? then None
    else if Undecided(v, e.name) then Some(MalformedVersion)
    else if !Named(v, e.name) then None
    else if e.File? then Some(NotADirectory)
    else Failure(v, e.entries, |e.entries|)
  }

  /** The levels from `depth` (not included) down to k, deepest first, each in number order. */
  function Levels(v: Version, es: seq<Entry>, depth: nat, k: nat): seq<Item>
    decreases depth - k
  {
    if k >= depth then [] else Levels(v, es, depth, k + 1) + StableSort(Found(v, es, |es|, [], k))
  }

  // --- The walk as the source runs it ---

  function At(lists: map<nat, seq<Item>>, depth: nat): seq<Item> {
    if depth in lists then lists[depth] else []
  }

  ghost predicate SortedFrom(lists: map<nat, seq<Item>>, depth: nat) {
    forall j: nat :: j >= depth ==> Ascending(At(lists, j))
  }

  /** What a visit of `e`, at `depth` and `path`, has to add to the list `below` levels further down. */
  function Yield(v: Version, e: Entry, path: Path, depth: nat, below: nat): seq<Item> {
    if e.Dir? && (depth == 0 || Named(v, e.name)) then Found(v, e.entries, |e.entries|, path, below) else []
  }

  /** A visit's effect on the list at level j: nothing above its own depth, else the yield is added and the list sorted. */
  predicate VisitedAt(v: Version, e: Entry, path: Path, depth: nat, j: nat, before: seq<Item>, after: seq<Item>) {
    after == if j < depth then before else StableSort(before + Yield(v, e, path, depth, j - depth))
  }

  ghost predicate Visited(v: Version, e: Entry, path: Path, depth: nat,
                          before: map<nat, seq<Item>>, after: map<nat, seq<Item>>) {
    forall j: nat :: VisitedAt(v, e, path, depth, j, At(before, j), At(after, j))
  }

  /** The same for a visit under way, after n entries: the list at its own depth is not sorted yet. */
  predicate UnderWayAt(v: Version, es: seq<Entry>, n: nat, path: Path, depth: nat, j: nat, before: seq<Item>, after: seq<Item>)
    requires n <= |es|
  {
    after == if j < depth then before
             else if j == depth then before + Found(v, es, n, path, 0)
             else StableSort(before + Found(v, es, n, path, j - depth))
  }

  ghost predicate UnderWay(v: Version, es: seq<Entry>, n: nat, path: Path, depth: nat,
                           before: map<nat, seq<Item>>, after: map<nat, seq<Item>>)
    requires n <= |es|
  {
    forall j: nat :: UnderWayAt(v, es, n, path, depth, j, At(before, j), At(after, j))
  }

  lemma SortedPlusNothing(s: seq<Item>)
    requires Ascending(s)
    ensures StableSort(s + []) == s
  {
    assert s + [] == s;
    SortedIsFixed(s);
  }

  lemma NothingYet(v: Version, es: seq<Entry>, path: Path, depth: nat, lists: map<nat, seq<Item>>)
    requires SortedFrom(lists, depth)
    ensures UnderWay(v, es, 0, path, depth, lists, lists)
  {
    forall j: nat
      ensures UnderWayAt(v, es, 0, path, depth, j, At(lists, j), At(lists, j))
    {
      assert At(lists, j) + [] == At(lists, j);
      if j > depth {
        SortedPlusNothing(At(lists, j));
      }
    }
  }

  lemma NoYield(v: Version, e: Entry, path: Path, depth: nat, lists: map<nat, seq<Item>>)
    requires SortedFrom(lists, depth) && depth > 0 && !Named(v, e.name)
    ensures Visited(v, e, path, depth, lists, lists)
  {
    forall j: nat
      ensures VisitedAt(v, e, path, depth, j, At(lists, j), At(lists, j))
    {
      if j >= depth {
        SortedPlusNothing(At(lists, j));
      }
    }
  }

  lemma UnderWayIsSorted(v: Version, es: seq<Entry>, n: nat, path: Path, depth: nat,
                         before: map<nat, seq<Item>>, after: map<nat, seq<Item>>)
    requires n <= |es| && UnderWay(v, es, n, path, depth, before, after)
    ensures SortedFrom(after, depth + 1)
  {
    forall j: nat | j > depth
      ensures Ascending(At(after, j))
    {
      assert UnderWayAt(v, es, n, path, depth, j, At(before, j), At(after, j));
      StableSortSorts(At(before, j) + Found(v, es, n, path, j - depth));
    }
  }

  lemma Regroup(a: seq<Item>, b: seq<Item>, c: seq<Item>)
    ensures a + b + c == a + (b + c)
  {
  }

  lemma PatchAt(v: Version, es: seq<Entry>, n: nat, path: Path, depth: nat, j: nat, before: seq<Item>, mid: seq<Item>)
    requires n < |es| && es[n].Patch? && UnderWayAt(v, es, n, path, depth, j, before, mid)
    ensures UnderWayAt(v, es, n + 1, path, depth, j, before, if j == depth then mid + FoundAt(v, es[n], path, 0) else mid)
  {
    if j >= depth {
      var f, g := Found(v, es, n, path, j - depth), FoundAt(v, es[n], path, j - depth);
      assert Found(v, es, n + 1, path, j - depth) == f + g;
      Regroup(before, f, g);
      assert j > depth ==> f + g == f;
    }
  }

  lemma ChildAt(v: Version, es: seq<Entry>, n: nat, path: Path, depth: nat, j: nat,
                before: seq<Item>, mid: seq<Item>, after: seq<Item>)
    requires n < |es| && !es[n].Patch? && UnderWayAt(v, es, n, path, depth, j, before, mid)
    requires VisitedAt(v, es[n], path + [es[n].name], depth + 1, j, mid, after)
    ensures UnderWayAt(v, es, n + 1, path, depth, j, before, after)
  {
    if j >= depth {
      var f, g := Found(v, es, n, path, j - depth), FoundAt(v, es[n], path, j - depth);
      assert Found(v, es, n + 1, path, j - depth) == f + g;
      assert j == depth ==> f + g == f;
      Regroup(before, f, g);
      SortingAgain(before + f, g);
    }
  }

  lemma PatchStep(v: Version, es: seq<Entry>, n: nat, path: Path, depth: nat,
                  before: map<nat, seq<Item>>, mid: map<nat, seq<Item>>)
    requires n < |es| && UnderWay(v, es, n, path, depth, before, mid) && es[n].Patch? && depth in mid
    ensures UnderWay(v, es, n + 1, path, depth, before, mid[depth := mid[depth] + FoundAt(v, es[n], path, 0)])
  {
    forall j: nat
      ensures UnderWayAt(v, es, n + 1, path, depth, j, At(before, j), At(mid[depth := mid[depth] + FoundAt(v, es[n], path, 0)], j))
    {
      PatchAt(v, es, n, path, depth, j, At(before, j), At(mid, j));
    }
  }

  lemma ChildStep(v: Version, es: seq<Entry>, n: nat, path: Path, depth: nat,
                  before: map<nat, seq<Item>>, mid: map<nat, seq<Item>>, after: map<nat, seq<Item>>)
    requires n < |es| && UnderWay(v, es, n, path, depth, before, mid) && !es[n].Patch?
    requires Visited(v, es[n], path + [es[n].name], depth + 1, mid, after)
    ensures UnderWay(v, es, n + 1, path, depth, before, after)
  {
    forall j: nat
      ensures UnderWayAt(v, es, n + 1, path, depth, j, At(before, j), At(after, j))
    {
      assert VisitedAt(v, es[n], path + [es[n].name], depth + 1, j, At(mid, j), At(after, j));
      ChildAt(v, es, n, path, depth, j, At(before, j), At(mid, j), At(after, j));
    }
  }

  lemma LastSort(v: Version, e: Entry, path: Path, depth: nat,
                 before: map<nat, seq<Item>>, mid: map<nat, seq<Item>>)
    requires e.Dir? && (depth == 0 || Named(v, e.name)) && depth in mid
    requires UnderWay(v, e.entries, |e.entries|, path, depth, before, mid)
    ensures Visited(v, e, path, depth, before, mid[depth := StableSort(mid[depth])])
  {
    forall j: nat
      ensures VisitedAt(v, e, path, depth, j, At(before, j), At(mid[depth := StableSort(mid[depth])], j))
    {
      assert UnderWayAt(v, e.entries, |e.entries|, path, depth, j, At(before, j), At(mid, j));
    }
  }

  /** A visit only looks at a list's items, so an absent list and an empty one are alike. */
  lemma SameLists(v: Version, e: Entry, path: Path, depth: nat,
                  before: map<nat, seq<Item>>, start: map<nat, seq<Item>>, after: map<nat, seq<Item>>)
    requires Visited(v, e, path, depth, start, after) && forall j: nat :: At(before, j) == At(start, j)
    ensures Visited(v, e, path, depth, before, after)
  {
    forall j: nat
      ensures VisitedAt(v, e, path, depth, j, At(before, j), At(after, j))
    {
      assert VisitedAt(v, e, path, depth, j, At(start, j), At(after, j));
    }
  }

  /** The dictionary from depth to list, with its keys in insertion order. */
  class Collector {
    var keys: seq<nat>
    var lists: map<nat, seq<Item>>

    /** The keys were inserted in increasing order: they are 0, 1, 2, ... */
    ghost predicate Valid()
      reads this
    {
      && (forall i :: 0 <= i < |keys| ==> keys[i] == i)
      && (forall j: nat :: j in lists <==> j < |keys|)
    }

    constructor ()
      ensures Valid() && keys == [] && lists == map[]
    {
      keys, lists := [], map[];
    }

    method Enter(depth: nat)
      requires Valid() && depth <= |keys|
      modifies this
      ensures Valid() && depth < |keys|
      ensures forall j: nat :: At(lists, j) == At(old(lists), j)
    {
      if depth !in lists {
        keys := keys + [depth];
        lists := lists[depth := []];
      }
    }

    /** Visits a non-patch entry at `depth`, whose full path is `path`; the root alone is not compared with the version. */
    method Visit(v: Version, e: Entry, path: Path, depth: nat) returns (failure: Option<Error>)
      requires !e.Patch? && Valid() && SortedFrom(lists, depth) && depth <= |keys|
      requires depth == 0 ==> e.Dir?
      modifies this
      ensures Valid() && |keys| > depth
      ensures failure == if depth > 0 then FailureAt(v, e) else Failure(v, e.entries, |e.entries|)
      ensures failure.None? ==> Visited(v, e, path, depth, old(lists), lists)
      decreases e, 3
    {
      Enter(depth);
      ghost var before := lists;
      if depth > 0 {
        var named := Compare(v, e.name);
        if named.Err? {
          return Some(named.error);
        }
        if !named.value {
          NoYield(v, e, path, depth, lists);
          SameLists(v, e, path, depth, old(lists), before, lists);
          return None;
        }
      }
      if e.File? {
        return Some(NotADirectory);
      }
      failure := VisitEntries(v, e, path, depth);
      if failure.None? {
        SameLists(v, e, path, depth, old(lists), before, lists);
      }
    }

    /** Appends a patch with a number, and skips one without. */
    method AddPatch(v: Version, es: seq<Entry>, i: nat, path: Path, depth: nat, ghost before: map<nat, seq<Item>>)
      requires i < |es| && es[i].Patch? && Valid() && depth < |keys|
      requires UnderWay(v, es, i, path, depth, before, lists)
      modifies this`lists
      ensures Valid() && UnderWay(v, es, i + 1, path, depth, before, lists)
    {
      PatchStep(v, es, i, path, depth, before, lists);
      if es[i].number.Some? {
        lists := lists[depth := lists[depth] + [Item(es[i].number.value, path + [es[i].name])]];
      } else {
        assert lists[depth] + [] == lists[depth];
      }
    }

    method VisitChild(v: Version, e: Entry, i: nat, path: Path, depth: nat, ghost before: map<nat, seq<Item>>)
      returns (failure: Option<Error>)
      requires e.Dir? && i < |e.entries| && !e.entries[i].Patch? && Valid() && depth < |keys|
      requires UnderWay(v, e.entries, i, path, depth, before, lists)
      modifies this
      ensures Valid() && depth < |keys| && failure == FailureAt(v, e.entries[i])
      ensures failure.None? ==> UnderWay(v, e.entries, i + 1, path, depth, before, lists)
      decreases e, 0
    {
      UnderWayIsSorted(v, e.entries, i, path, depth, before, lists);
      failure := Visit(v, e.entries[i], path + [e.entries[i].name], depth + 1);
      if failure.None? {
        ChildStep(v, e.entries, i, path, depth, before, old(lists), lists);
      }
    }

    method VisitEntry(v: Version, e: Entry, i: nat, path: Path, depth: nat, ghost before: map<nat, seq<Item>>)
      returns (failure: Option<Error>)
      requires e.Dir? && i < |e.entries| && Valid() && depth < |keys|
      requires UnderWay(v, e.entries, i, path, depth, before, lists)
      modifies this
      ensures Valid() && depth < |keys| && failure == FailureAt(v, e.entries[i])
      ensures failure.None? ==> UnderWay(v, e.entries, i + 1, path, depth, before, lists)
      decreases e, 1
    {
      if e.entries[i].Patch? {
        AddPatch(v, e.entries, i, path, depth, before);
        return None;
      }
      failure := VisitChild(v, e, i, path, depth, before);
    }

    method SortLevel(v: Version, e: Entry, path: Path, depth: nat, ghost before: map<nat, seq<Item>>)
      requires e.Dir? && (depth == 0 || Named(v, e.name)) && Valid() && depth < |keys|
      requires UnderWay(v, e.entries, |e.entries|, path, depth, before, lists)
      modifies this`lists
      ensures Valid() && Visited(v, e, path, depth, before, lists)
    {
      LastSort(v, e, path, depth, before, lists);
      lists := lists[depth := StableSort(lists[depth])];
    }

    /** The loop of a visit over the entries of its directory, and the sort that ends it. */
    method VisitEntries(v: Version, e: Entry, path: Path, depth: nat) returns (failure: Option<Error>)
      requires e.Dir? && (depth == 0 || Named(v, e.name))
      requires Valid() && SortedFrom(lists, depth) && depth < |keys|
      modifies this
      ensures Valid() && |keys| > depth
      ensures failure == Failure(v, e.entries, |e.entries|)
      ensures failure.None? ==> Visited(v, e, path, depth, old(lists), lists)
      decreases e, 2
    {
      failure := None;
      ghost var before := lists;
      NothingYet(v, e.entries, path, depth, lists);
      var i := 0;
      while i < |e.entries|
        invariant i <= |e.entries|
        invariant Valid() && |keys| > depth
        invariant failure.None? && Failure(v, e.entries, i).None?
        invariant UnderWay(v, e.entries, i, path, depth, before, lists)
      {
        failure := VisitEntry(v, e, i, path, depth, before);
        if failure.Some? {
          FailureIsKept(v, e.entries, i + 1, |e.entries|);
          return;
        }
        i := i + 1;
      }
      SortLevel(v, e, path, depth, before);
    }
  }

  method Compare(v: Version, name: string) returns (r: Result<bool, Error>)
    ensures r == if Undecided(v, name) then Err(MalformedVersion) else Ok(Named(v, name))
    ensures r == Ok(true) <==> name == v.full || v.minor == Some(name) || v.major == Some(name)
    ensures r.Err? <==> r != Ok(true) && v.major.None?
  {
    if name == v.full {
      return Ok(true);
    }
    if v.minor == Some(name) {
      return Ok(true);
    }
    if v.major.None? {
      return Err(MalformedVersion);
    }
    return Ok(v.major == Some(name));
  }

  lemma {:induction false} FailureIsKept(v: Version, es: seq<Entry>, n: nat, m: nat)
    requires n <= m <= |es| && Failure(v, es, n).Some?
    ensures Failure(v, es, m) == Failure(v, es, n)
    decreases m
  {
    if n == m {
    } else {
      FailureIsKept(v, es, n, m - 1);
    }
  }

  function Paths(s: seq<Item>): seq<Path> {
    seq(|s|, i requires 0 <= i < |s| => s[i].path)
  }

  lemma VisitedRoot(v: Version, root: Entry, j: nat, after: seq<Item>)
    requires root.Dir? && VisitedAt(v, root, [], 0, j, [], after)
    ensures after == StableSort(Found(v, root.entries, |root.entries|, [], j))
  {
    assert [] + Found(v, root.entries, |root.entries|, [], j) == Found(v, root.entries, |root.entries|, [], j);
  }

  lemma EmptyWhenSortedEmpty(s: seq<Item>)
    requires StableSort(s) == []
    ensures s == []
  {
    StableSortSorts(s);
    assert |multiset(s)| == |s|;
  }

  lemma PathsAppend(s: seq<Item>, t: seq<Item>)
    ensures Paths(s + t) == Paths(s) + Paths(t)
  {
  }

  method DeepestFirst(v: Version, es: seq<Entry>, keys: seq<nat>, lists: map<nat, seq<Item>>) returns (order: seq<Path>)
    requires forall i :: 0 <= i < |keys| ==> keys[i] == i && i in lists
    requires forall i :: 0 <= i < |keys| ==> lists[i] == StableSort(Found(v, es, |es|, [], i))
    ensures order == Paths(Levels(v, es, |keys|, 0))
  {
    order := [];
    var k := |keys|;
    while k > 0
      invariant 0 <= k <= |keys|
      invariant order == Paths(Levels(v, es, |keys|, k))
    {
      k := k - 1;
      PathsAppend(Levels(v, es, |keys|, k + 1), lists[k]);
      order := Append(order, lists[keys[k]]);
    }
  }

  method Append(order: seq<Path>, items: seq<Item>) returns (r: seq<Path>)
    ensures r == order + Paths(items)
  {
    r := order;
    for i := 0 to |items|
      invariant r == order + Paths(items[..i])
    {
      r := r + [items[i].path];
    }
    assert items[..|items|] == items;
  }

  // --- What the list means ---

  /** The path leads through directories named after the version to a patch with number k. */
  ghost predicate Leads(v: Version, es: seq<Entry>, n: nat, p: Path, k: nat)
    requires n <= |es|
    decreases es, n
  {
    exists i :: 0 <= i < n && LeadsAt(v, es[i], p, k)
  }

  ghost predicate LeadsAt(v: Version, e: Entry, p: Path, k: nat)
    decreases e, 0
  {
    match e
    case Patch(name, number) => p == [name] && number == Some(k)
    case Dir(name, es) => |p| > 1 && p[0] == name && Named(v, name) && Leads(v, es, |es|, p[1..], k)
    case File(_) => false
  }

  /** Entries of one directory have different names. */
  predicate DistinctNames(e: Entry)
    decreases e
  {
    e.Dir? ==>
      && (forall i, j :: 0 <= i < j < |e.entries| ==> e.entries[i].name != e.entries[j].name)
      && (forall i :: 0 <= i < |e.entries| ==> DistinctNames(e.entries[i]))
  }

  lemma {:induction false} FoundIsReached(v: Version, es: seq<Entry>, n: nat, path: Path, below: nat, it: Item)
    requires n <= |es|
    ensures it in Found(v, es, n, path, below)
      <==> |it.path| == |path| + below + 1 && path <= it.path && Leads(v, es, n, it.path[|path|..], it.number)
    decreases es, n
  {
    if n == 0 {
    } else {
      FoundIsReached(v, es, n - 1, path, below, it);
      FoundAtIsReached(v, es[n - 1], path, below, it);
    }
  }

  lemma {:induction false} FoundAtIsReached(v: Version, e: Entry, path: Path, below: nat, it: Item)
    ensures it in FoundAt(v, e, path, below)
      <==> |it.path| == |path| + below + 1 && path <= it.path && LeadsAt(v, e, it.path[|path|..], it.number)
    decreases e, 0
  {
    match e
    case Patch(name, number) =>
      if |it.path| == |path| + 1 && path <= it.path {
        assert it.path == path + it.path[|path|..];
      }
    case Dir(name, es) =>
      if below > 0 {
        FoundIsReached(v, es, |es|, path + [name], below - 1, it);
        if |it.path| == |path| + below + 1 && path <= it.path {
          assert it.path[|path|..][1..] == it.path[|path| + 1..];
          assert path + [name] <= it.path <==> it.path[|path|] == name;
        }
      }
    case File(_) =>
  }

  ghost predicate NoPathTwice(s: seq<Item>) {
    forall a, b :: 0 <= a < b < |s| ==> s[a].path != s[b].path
  }

  lemma {:induction false} FoundOnce(v: Version, e: Entry, n: nat, path: Path, below: nat)
    requires e.Dir? && DistinctNames(e) && n <= |e.entries|
    ensures NoPathTwice(Found(v, e.entries, n, path, below))
    decreases e, n
  {
    if n == 0 {
    } else {
      var es, last := e.entries, e.entries[n - 1];
      FoundOnce(v, e, n - 1, path, below);
      var s, t := Found(v, es, n - 1, path, below), FoundAt(v, last, path, below);
      if last.Dir? && below > 0 && Named(v, last.name) {
        FoundOnce(v, last, |last.entries|, path + [last.name], below - 1);
      }
      forall a, b | 0 <= a < |s| && 0 <= b < |t|
        ensures s[a].path != t[b].path
      {
        assert s[a] in s && t[b] in t;
        HeadNames(v, es, n - 1, path, below, s[a]);
        FoundAtIsReached(v, last, path, below, t[b]);
      }
    }
  }

  /** What is found starts, below `path`, with the name of one of the entries. */
  lemma HeadNames(v: Version, es: seq<Entry>, n: nat, path: Path, below: nat, it: Item)
    requires n <= |es| && it in Found(v, es, n, path, below)
    ensures |it.path| > |path| && exists i :: 0 <= i < n && es[i].name == it.path[|path|]
  {
    FoundIsReached(v, es, n, path, below, it);
    var i :| 0 <= i < n && LeadsAt(v, es[i], it.path[|path|..], it.number);
    assert es[i].name == it.path[|path|..][0] == it.path[|path|];
  }

  lemma {:induction false} InsertOnce(s: seq<Item>, x: Item)
    requires NoPathTwice(s) && forall i :: 0 <= i < |s| ==> s[i].path != x.path
    ensures NoPathTwice(Insert(s, x))
  {
    if s != [] && s[|s| - 1].number > x.number {
      var front, last := s[..|s| - 1], s[|s| - 1];
      InsertOnce(front, x);
      InsertAdds(front, x);
      var t := Insert(front, x);
      forall i | 0 <= i < |t|
        ensures t[i].path != last.path
      {
        assert t[i] in multiset(t);
        assert t[i] in front || t[i] == x;
      }
    }
  }

  lemma {:induction false} SortOnce(s: seq<Item>)
    requires NoPathTwice(s)
    ensures NoPathTwice(StableSort(s))
    decreases |s|
  {
    if s == [] {
    } else {
      var front, last := s[..|s| - 1], s[|s| - 1];
      SortOnce(front);
      var t := StableSort(front);
      InsertAllAdds([], front);
      forall i | 0 <= i < |t|
        ensures t[i].path != last.path
      {
        assert t[i] in multiset(t);
        assert t[i] in front;
      }
      InsertOnce(t, last);
    }
  }

  lemma SortKeepsMembers(s: seq<Item>, it: Item)
    ensures it in StableSort(s) <==> it in s
  {
    StableSortSorts(s);
    assert it in multiset(StableSort(s)) <==> it in multiset(s);
  }

  lemma {:induction false} LevelsHold(v: Version, es: seq<Entry>, depth: nat, k: nat, it: Item)
    ensures it in Levels(v, es, depth, k)
      <==> k < |it.path| <= depth && Leads(v, es, |es|, it.path, it.number)
    decreases depth - k
  {
    if k >= depth {
    } else {
      LevelsHold(v, es, depth, k + 1, it);
      SortKeepsMembers(Found(v, es, |es|, [], k), it);
      FoundIsReached(v, es, |es|, [], k, it);
      assert it.path[0..] == it.path;
    }
  }

  /** The list holds a patch if and only if its path leads through matching directories to a well-numbered patch. */
  lemma ListIsExact(v: Version, root: Entry, depth: nat, p: Path, k: nat)
    requires root.Dir? && PastDeepest(v, root, depth)
    ensures Item(k, p) in Levels(v, root.entries, depth, 0) <==> Leads(v, root.entries, |root.entries|, p, k)
  {
    LevelsHold(v, root.entries, depth, 0, Item(k, p));
    if |p| > 0 {
      FoundAtItsLevel(v, root.entries, Item(k, p));
    }
  }

  lemma FoundAtItsLevel(v: Version, es: seq<Entry>, it: Item)
    requires |it.path| > 0
    ensures it in Found(v, es, |es|, [], |it.path| - 1) <==> Leads(v, es, |es|, it.path, it.number)
  {
    FoundIsReached(v, es, |es|, [], |it.path| - 1, it);
    assert it.path[0..] == it.path;
  }

  /** No patch is listed twice. */
  lemma {:induction false} ListHasNoDuplicates(v: Version, root: Entry, depth: nat, k: nat)
    requires root.Dir? && DistinctNames(root)
    ensures NoPathTwice(Levels(v, root.entries, depth, k))
    decreases depth - k
  {
    if k >= depth {
    } else {
      var es := root.entries;
      ListHasNoDuplicates(v, root, depth, k + 1);
      FoundOnce(v, root, |es|, [], k);
      SortOnce(Found(v, es, |es|, [], k));
      var s, t := Levels(v, es, depth, k + 1), StableSort(Found(v, es, |es|, [], k));
      forall a, b | 0 <= a < |s| && 0 <= b < |t|
        ensures s[a].path != t[b].path
      {
        LengthsFall(v, es, depth, k, s[a], t[b]);
      }
    }
  }

  lemma LengthsFall(v: Version, es: seq<Entry>, depth: nat, k: nat, above: Item, here: Item)
    requires above in Levels(v, es, depth, k + 1) && here in StableSort(Found(v, es, |es|, [], k))
    ensures |above.path| > k + 1 == |here.path|
  {
    LevelsHold(v, es, depth, k + 1, above);
    SortKeepsMembers(Found(v, es, |es|, [], k), here);
    FoundIsReached(v, es, |es|, [], k, here);
  }

  /** Deeper patches come first; at one depth the numbers ascend. */
  lemma {:induction false} ListOrder(v: Version, es: seq<Entry>, depth: nat, k: nat, a: nat, b: nat)
    requires a < b < |Levels(v, es, depth, k)|
    ensures var s := Levels(v, es, depth, k);
      |s[a].path| > |s[b].path| || (|s[a].path| == |s[b].path| && s[a].number <= s[b].number)
    decreases depth - k
  {
    var s, t := Levels(v, es, depth, k + 1), StableSort(Found(v, es, |es|, [], k));
    if b < |s| {
      ListOrder(v, es, depth, k + 1, a, b);
    } else if a < |s| {
      LengthsFall(v, es, depth, k, s[a], t[b - |s|]);
    } else {
      SameLevel(v, es, k, a - |s|, b - |s|);
    }
  }

  lemma SameLevel(v: Version, es: seq<Entry>, k: nat, a: nat, b: nat)
    requires a < b < |StableSort(Found(v, es, |es|, [], k))|
    ensures var t := StableSort(Found(v, es, |es|, [], k));
      |t[a].path| == |t[b].path| && t[a].number <= t[b].number
  {
    var f := Found(v, es, |es|, [], k);
    var t := StableSort(f);
    StableSortSorts(f);
    AscendingPair(t, a, b);
    SortKeepsMembers(f, t[a]);
    SortKeepsMembers(f, t[b]);
    FoundIsReached(v, es, |es|, [], k, t[a]);
    FoundIsReached(v, es, |es|, [], k, t[b]);
  }

  ghost predicate PastDeepest(v: Version, root: Entry, depth: nat)
    requires root.Dir?
  {
    forall j: nat :: j >= depth ==> Found(v, root.entries, |root.entries|, [], j) == []
  }

  /** Some number makes the path lead to a patch. */
  ghost predicate Reached(v: Version, root: Entry, p: Path)
    requires root.Dir?
  {
    exists k: nat :: Leads(v, root.entries, |root.entries|, p, k)
  }

  /** The first patch is to be applied before the second: it is deeper, or as deep and its number is not above. */
  ghost predicate Before(v: Version, root: Entry, p: Path, q: Path)
    requires root.Dir?
  {
    |p| > |q| ||
    (|p| == |q| && exists k: nat, m: nat ::
       k <= m && Leads(v, root.entries, |root.entries|, p, k) && Leads(v, root.entries, |root.entries|, q, m))
  }

  /** Exactly the patches reached, none twice, in the order of application. */
  ghost predicate IsPatchList(v: Version, root: Entry, paths: seq<Path>)
    requires root.Dir?
  {
    && (forall p :: p in paths <==> Reached(v, root, p))
    && (DistinctNames(root) ==> forall a, b :: 0 <= a < b < |paths| ==> paths[a] != paths[b])
    && (forall a, b :: 0 <= a < b < |paths| ==> Before(v, root, paths[a], paths[b]))
  }

  lemma ListMembers(v: Version, root: Entry, depth: nat, p: Path)
    requires root.Dir? && PastDeepest(v, root, depth)
    ensures p in Paths(Levels(v, root.entries, depth, 0)) <==> Reached(v, root, p)
  {
    var s := Levels(v, root.entries, depth, 0);
    if i :| 0 <= i < |s| && s[i].path == p {
      assert s[i] == Item(s[i].number, p);
      ListIsExact(v, root, depth, p, s[i].number);
    }
    if k: nat :| Leads(v, root.entries, |root.entries|, p, k) {
      ListIsExact(v, root, depth, p, k);
      var i :| 0 <= i < |s| && s[i] == Item(k, p);
      assert Paths(s)[i] == p;
    }
  }

  lemma ListPairs(v: Version, root: Entry, depth: nat, a: nat, b: nat)
    requires root.Dir? && PastDeepest(v, root, depth) && a < b < |Levels(v, root.entries, depth, 0)|
    ensures var s := Levels(v, root.entries, depth, 0); Before(v, root, s[a].path, s[b].path)
  {
    var s := Levels(v, root.entries, depth, 0);
    ListOrder(v, root.entries, depth, 0, a, b);
    assert s[a] == Item(s[a].number, s[a].path) && s[b] == Item(s[b].number, s[b].path);
    ListIsExact(v, root, depth, s[a].path, s[a].number);
    ListIsExact(v, root, depth, s[b].path, s[b].number);
  }

  lemma LevelsArePatchList(v: Version, root: Entry, depth: nat)
    requires root.Dir? && PastDeepest(v, root, depth)
    ensures IsPatchList(v, root, Paths(Levels(v, root.entries, depth, 0)))
  {
    var paths := Paths(Levels(v, root.entries, depth, 0));
    forall p
      ensures p in paths <==> Reached(v, root, p)
    {
      ListMembers(v, root, depth, p);
    }
    if DistinctNames(root) {
      ListHasNoDuplicates(v, root, depth, 0);
    }
    forall a, b | 0 <= a < b < |paths|
      ensures Before(v, root, paths[a], paths[b])
    {
      ListPairs(v, root, depth, a, b);
    }
  }

  /** The whole function: the first error of the walk, or the patches to apply, ties in walking order. */
  method PatchList(v: Version, root: Entry) returns (r: Result<seq<Path>, Error>)
    requires root.Dir?
    ensures r.Err? <==> Failure(v, root.entries, |root.entries|).Some?
    ensures r.Err? ==> Failure(v, root.entries, |root.entries|) == Some(r.error)
    ensures r.Err? <==> exists p :: BlocksWalk(v, root, p)
    ensures r.Ok? ==> IsPatchList(v, root, r.value)
    ensures r.Ok? ==> exists depth: nat :: PastDeepest(v, root, depth) && r.value == Paths(Levels(v, root.entries, depth, 0))
  {
    FailsIffBlocked(v, root);
    var c := new Collector();
    var failure := c.Visit(v, root, [], 0);
    if failure.Some? {
      return Err(failure.value);
    }
    ghost var depth := |c.keys|;
    forall j: nat
      ensures At(c.lists, j) == StableSort(Found(v, root.entries, |root.entries|, [], j))
      ensures j >= depth ==> Found(v, root.entries, |root.entries|, [], j) == []
    {
      VisitedRoot(v, root, j, At(c.lists, j));
      if j >= depth {
        EmptyWhenSortedEmpty(Found(v, root.entries, |root.entries|, [], j));
      }
    }
    var order := DeepestFirst(v, root.entries, c.keys, c.lists);
    LevelsArePatchList(v, root, depth);
    r := Ok(order);
  }

  // --- When the walk fails ---

  /** The path leads through directories named after the version to an entry the walk fails at. */
  ghost predicate Blocks(v: Version, es: seq<Entry>, n: nat, p: Path)
    requires n <= |es|
    decreases es, n
  {
    exists i :: 0 <= i < n && BlocksAt(v, es[i], p)
  }

  /** Neither a patch nor comparable with the version, or a plain file where a directory is expected. */
  ghost predicate BlocksAt(v: Version, e: Entry, p: Path)
    decreases e, 0
  {
    && !e.Patch? && p != [] && p[0] == e.name
    && if |p| == 1 then (!Named(v, e.name) && v.major.None?) || (Named(v, e.name) && e.File?)
       else e.Dir? && Named(v, e.name) && Blocks(v, e.entries, |e.entries|, p[1..])
  }

  lemma {:induction false} SomethingBlocks(v: Version, es: seq<Entry>, n: nat) returns (p: Path)
    requires n <= |es| && Failure(v, es, n).Some?
    ensures Blocks(v, es, n, p)
    decreases es, n
  {
    if Failure(v, es, n - 1).Some? {
      p := SomethingBlocks(v, es, n - 1);
      var i :| 0 <= i < n - 1 && BlocksAt(v, es[i], p);
    } else {
      p := SomethingBlocksAt(v, es[n - 1]);
    }
  }

  lemma {:induction false} SomethingBlocksAt(v: Version, e: Entry) returns (p: Path)
    requires FailureAt(v, e).Some?
    ensures BlocksAt(v, e, p)
    decreases e, 0
  {
    p := [e.name];
    if e.Dir? && Named(v, e.name) {
      var q := SomethingBlocks(v, e.entries, |e.entries|);
      NotEmpty(v, e.entries, |e.entries|, q);
      p := p + q;
      assert p[1..] == q;
    }
  }

  lemma {:induction false} BlockedFails(v: Version, es: seq<Entry>, n: nat, p: Path)
    requires n <= |es| && Blocks(v, es, n, p)
    ensures Failure(v, es, n).Some?
    decreases es, n
  {
    var i :| 0 <= i < n && BlocksAt(v, es[i], p);
    if i == n - 1 {
      BlockedFailsAt(v, es[i], p);
    } else {
      assert Blocks(v, es, n - 1, p);
      BlockedFails(v, es, n - 1, p);
    }
  }

  lemma {:induction false} BlockedFailsAt(v: Version, e: Entry, p: Path)
    requires BlocksAt(v, e, p)
    ensures FailureAt(v, e).Some?
    decreases e, 0
  {
    if |p| > 1 {
      BlockedFails(v, e.entries, |e.entries|, p[1..]);
    }
  }

  lemma NotEmpty(v: Version, es: seq<Entry>, n: nat, p: Path)
    requires n <= |es| && Blocks(v, es, n, p)
    ensures p != []
  {
  }

  ghost predicate BlocksWalk(v: Version, root: Entry, p: Path) {
    root.Dir? && Blocks(v, root.entries, |root.entries|, p)
  }

  /** The walk fails iff some path leads to such an entry. */
  lemma FailsIffBlocked(v: Version, root: Entry)
    requires root.Dir?
    ensures Failure(v, root.entries, |root.entries|).Some? <==> exists p :: BlocksWalk(v, root, p)
  {
    if Failure(v, root.entries, |root.entries|).Some? {
      var p := SomethingBlocks(v, root.entries, |root.entries|);
      assert BlocksWalk(v, root, p);
    } else if p :| BlocksWalk(v, root, p) {
      BlockedFails(v, root.entries, |root.entries|, p);
    }
  }
}
