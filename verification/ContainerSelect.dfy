/**
 The choice of a `container.yaml` in `cbscore/src/cbscore/containers/component.py`: every
 candidate is ranked by how many version parts its directory shares with the request.
 */
module ContainerSelect {
  import opened Wrappers

  /** The groups of the version pattern. Only the major number is always there. */
  datatype Parts = Parts(prefix: Option<string>, major: string, minor: Option<string>, patch: Option<string>, suffix: Option<string>)

  /** The pattern nests: a patch needs a minor number, a suffix needs a patch. */
  predicate WellFormed(p: Parts) {
    (p.patch.Some? ==> p.minor.Some?) && (p.suffix.Some? ==> p.patch.Some?)
  }

  type Version = p: Parts | WellFormed(p) witness Parts(None, "0", None, None, None)

  /** A found file: whether it lies in the searched directory itself, and its directory's name as a version. */
  datatype Candidate = Candidate(path: string, atRoot: bool, version: Option<Version>)

  function Group(p: Parts, k: nat): Option<string>
    requires k < 5
  {
    if k == 0 then p.prefix else if k == 1 then Some(p.major) else if k == 2 then p.minor else if k == 3 then p.patch else p.suffix
  }

  /** The first k groups of a version, the others absent. */
  function Truncate(p: Version, k: nat): Version
    requires 2 <= k <= 5
  {
    Parts(p.prefix, p.major, if k > 2 then p.minor else None, if k > 3 then p.patch else None, if k > 4 then p.suffix else None)
  }

  predicate IsVersionPrefix(p: Version, of: Version) {
    exists k :: 2 <= k <= 5 && p == Truncate(of, k)
  }

  // --- Ranking ---

  /** What rank r means: the first r groups agree, and then the directory just stops. -1 is any other case. */
  predicate IsRank(request: Version, dir: Version, r: int) {
    if 0 <= r <= 5 then
      && (forall k :: 0 <= k < r ==> Group(request, k) == Group(dir, k))
      && (r < 5 ==> Group(request, r).Some? && Group(dir, r).None?)
    else
      && r == -1
      && exists k ::
        && 0 <= k < 5 && Group(request, k) != Group(dir, k) && (Group(request, k).None? || Group(dir, k).Some?)
        && forall i :: 0 <= i < k ==> Group(request, i) == Group(dir, i)
  }

  function RankFrom(request: Version, dir: Version, k: nat): int
    requires k <= 5
    decreases 5 - k
  {
    if k == 5 then 5
    else if Group(request, k) == Group(dir, k) then RankFrom(request, dir, k + 1)
    else if Group(request, k).Some? && Group(dir, k).None? then k
    else -1
  }

  function Rank(request: Version, dir: Version): int {
    RankFrom(request, dir, 0)
  }

  lemma {:induction false} RankFromMeans(request: Version, dir: Version, k: nat)
    requires k <= 5 && forall i :: 0 <= i < k ==> Group(request, i) == Group(dir, i)
    ensures IsRank(request, dir, RankFrom(request, dir, k))
    decreases 5 - k
  {
    if k < 5 && Group(request, k) == Group(dir, k) {
      RankFromMeans(request, dir, k + 1);
    }
  }

  lemma {:induction false} MeaningIsRankFrom(request: Version, dir: Version, k: nat, r: int)
    requires k <= 5 && IsRank(request, dir, r) && (r == -1 || r >= k)
    requires forall i :: 0 <= i < k ==> Group(request, i) == Group(dir, i)
    ensures RankFrom(request, dir, k) == r
    decreases 5 - k
  {
    if k < 5 && Group(request, k) == Group(dir, k) {
      MeaningIsRankFrom(request, dir, k + 1, r);
    }
  }

  /** The ranking loop computes this meaning and nothing else. */
  lemma RankMeans(request: Version, dir: Version, r: int)
    ensures IsRank(request, dir, r) <==> r == Rank(request, dir)
  {
    RankFromMeans(request, dir, 0);
    if IsRank(request, dir, r) {
      MeaningIsRankFrom(request, dir, 0, r);
    }
  }

  method MatchParts(request: Version, dir: Version) returns (matched: int)
    ensures matched == Rank(request, dir) && IsRank(request, dir, matched)
  {
    RankFromMeans(request, dir, 0);
    matched := 0;
    for k := 0 to 5
      invariant matched == k && Rank(request, dir) == RankFrom(request, dir, k)
    {
      if Group(request, k) != Group(dir, k) {
        if Group(request, k).Some? && Group(dir, k).None? {
          return;
        }
        return -1;
      }
      matched := matched + 1;
    }
  }

  /** A rank above 0 is at least 2 and fixes the directory's version: the request cut off there. */
  lemma RankFixesVersion(request: Version, dir: Version)
    ensures Rank(request, dir) > 0 <==> IsVersionPrefix(dir, request)
    ensures Rank(request, dir) > 0 ==> Rank(request, dir) >= 2 && dir == Truncate(request, Rank(request, dir))
  {
    RankFromMeans(request, dir, 0);
    var r := Rank(request, dir);
    if r > 0 {
      assert Group(request, 0) == Group(dir, 0);
      assert r > 2 ==> Group(request, 2) == Group(dir, 2);
      assert r > 3 ==> Group(request, 3) == Group(dir, 3);
      assert r > 4 ==> Group(request, 4) == Group(dir, 4);
      assert dir == Truncate(request, r);
    }
    if k :| 2 <= k <= 5 && dir == Truncate(request, k) {
      UnrollRank(request, dir);
    }
  }

  lemma UnrollRank(request: Version, dir: Version)
    requires request.prefix == dir.prefix && request.major == dir.major
    ensures Rank(request, dir) == RankFrom(request, dir, 2)
  {
    assert RankFrom(request, dir, 0) == RankFrom(request, dir, 1);
  }

  /** Rank 0 is exactly a directory without prefix under a request with one; no version number is compared at all. */
  lemma RankZeroIgnoresNumbers(request: Version, dir: Version)
    ensures Rank(request, dir) == 0 <==> request.prefix.Some? && dir.prefix.None?
  {
    RankFromMeans(request, dir, 0);
    if Rank(request, dir) > 0 {
      assert Group(request, 0) == Group(dir, 0);
    }
  }

  // --- The choice ---

  datatype Best = Best(rank: int, choice: Option<Candidate>)

  function Consider(request: Version, b: Best, c: Candidate): Best {
    if c.atRoot && b.rank < 0 then Best(0, Some(c))
    else if c.version.Some? && Rank(request, c.version.value) > b.rank then Best(Rank(request, c.version.value), Some(c))
    else b
  }

  /** The candidates are taken from the end of the listing. */
  function ChooseFrom(request: Version, listing: seq<Candidate>, from: nat): Best
    requires from <= |listing|
    decreases |listing| - from
  {
    if from == |listing| then Best(-1, None)
    else Consider(request, ChooseFrom(request, listing, from + 1), listing[from])
  }

  method FindContainerRoot(request: Version, listing: seq<Candidate>) returns (best: Option<Candidate>)
    ensures best == ChooseFrom(request, listing, 0).choice
  {
    var bestRank := -1;
    best := None;
    var i := |listing|;
    while i > 0
      invariant 0 <= i <= |listing| && Best(bestRank, best) == ChooseFrom(request, listing, i)
    {
      i := i - 1;
      var candidate := listing[i];
      if candidate.atRoot && bestRank < 0 {
        bestRank := 0;
        best := Some(candidate);
        continue;
      }
      if candidate.version.None? {
        continue;
      }
      var matched := MatchParts(request, candidate.version.value);
      if matched > bestRank {
        bestRank := matched;
        best := Some(candidate);
      }
    }
  }

  /** The rank a candidate stands for: 0 at the root, otherwise that of its directory's name. */
  function Score(request: Version, c: Candidate): int {
    if c.atRoot then 0 else if c.version.None? then -1 else Rank(request, c.version.value)
  }

  /** There is one file of that name in the searched directory. */
  predicate OneRoot(listing: seq<Candidate>) {
    forall i, j :: 0 <= i < j < |listing| ==> !(listing[i].atRoot && listing[j].atRoot)
  }

  predicate IsBest(request: Version, listing: seq<Candidate>, from: nat, b: Best)
    requires from <= |listing|
  {
    && b.rank >= -1 && (b.choice.None? <==> b.rank == -1)
    && (b.choice.Some? ==>
          exists i :: from <= i < |listing| && listing[i] == b.choice.value && Score(request, listing[i]) == b.rank)
    && forall i :: from <= i < |listing| ==> Score(request, listing[i]) <= b.rank
  }

  /**
   The root at r wins by the version in its own name: a candidate listed after it counts, none of
   those has its rank, and none before it has a higher one.
   */
  predicate WinsByName(request: Version, listing: seq<Candidate>, from: nat, r: nat)
    requires from <= |listing|
  {
    && from <= r < |listing| && listing[r].atRoot && listing[r].version.Some?
    && var rank := Rank(request, listing[r].version.value);
    && (exists i :: r < i < |listing| && Score(request, listing[i]) >= 0)
    && (forall i :: r < i < |listing| ==> Score(request, listing[i]) < rank)
    && (forall i :: from <= i < r ==> Score(request, listing[i]) <= rank)
  }

  ghost predicate RootWinsByName(request: Version, listing: seq<Candidate>, from: nat)
    requires from <= |listing|
  {
    exists r: nat :: WinsByName(request, listing, from, r)
  }

  predicate IsWinner(request: Version, listing: seq<Candidate>, from: nat, r: nat, b: Best)
    requires from <= |listing|
  {
    WinsByName(request, listing, from, r) && b == Best(Rank(request, listing[r].version.value), Some(listing[r]))
  }

  /** What a choice is, for any listing: the root by its own name, if it wins so, and otherwise one of maximal score. */
  ghost predicate IsChoice(request: Version, listing: seq<Candidate>, from: nat, b: Best)
    requires from <= |listing|
  {
    && (RootWinsByName(request, listing, from) ==>
          exists r: nat :: IsWinner(request, listing, from, r, b))
    && (!RootWinsByName(request, listing, from) ==> IsBest(request, listing, from, b))
  }

  lemma RootStep(request: Version, listing: seq<Candidate>, from: nat)
    requires from < |listing| && OneRoot(listing) && listing[from].atRoot
    requires IsBest(request, listing, from + 1, ChooseFrom(request, listing, from + 1))
    ensures IsChoice(request, listing, from, ChooseFrom(request, listing, from))
  {
    var b, b', root := ChooseFrom(request, listing, from + 1), ChooseFrom(request, listing, from), listing[from];
    if b.rank < 0 {
      assert b' == Best(0, Some(root)) && Score(request, listing[from]) == 0;
    } else if root.version.Some? && Rank(request, root.version.value) > b.rank {
      assert IsWinner(request, listing, from, from, b');
    } else {
      assert b' == b;
    }
  }

  lemma PlainStep(request: Version, listing: seq<Candidate>, from: nat)
    requires from < |listing| && OneRoot(listing) && !listing[from].atRoot
    requires !RootWinsByName(request, listing, from + 1) && IsBest(request, listing, from + 1, ChooseFrom(request, listing, from + 1))
    ensures IsChoice(request, listing, from, ChooseFrom(request, listing, from))
  {
    assert forall r :: WinsByName(request, listing, from, r) ==> WinsByName(request, listing, from + 1, r);
    assert Score(request, listing[from]) > ChooseFrom(request, listing, from + 1).rank ==>
        ChooseFrom(request, listing, from) == Best(Score(request, listing[from]), Some(listing[from]));
    ScoreIsRank(request, listing[from]);
  }

  lemma ScoreIsRank(request: Version, c: Candidate)
    ensures Score(request, c) >= -1
  {
    if c.version.Some? {
      RankFromMeans(request, c.version.value, 0);
    }
  }

  lemma AgainstWinner(request: Version, listing: seq<Candidate>, from: nat, r: nat)
    requires from < |listing| && OneRoot(listing)
    requires IsWinner(request, listing, from + 1, r, ChooseFrom(request, listing, from + 1))
    ensures IsChoice(request, listing, from, ChooseFrom(request, listing, from))
  {
    var b, c := ChooseFrom(request, listing, from + 1), listing[from];
    assert !c.atRoot;
    if Score(request, c) > b.rank {
      assert ChooseFrom(request, listing, from) == Best(Score(request, c), Some(c));
      assert forall q :: WinsByName(request, listing, from, q) ==> q == r;
      assert !WinsByName(request, listing, from, r);
    } else {
      assert IsWinner(request, listing, from, r, ChooseFrom(request, listing, from));
    }
  }

  lemma {:induction false} ChooseFromMeans(request: Version, listing: seq<Candidate>, from: nat)
    requires from <= |listing| && OneRoot(listing)
    ensures IsChoice(request, listing, from, ChooseFrom(request, listing, from))
    decreases |listing| - from
  {
    if from == |listing| {
    } else {
      ChooseFromMeans(request, listing, from + 1);
      var next, b := from + 1, ChooseFrom(request, listing, from + 1);
      if r: nat :| IsWinner(request, listing, next, r, b) {
        AgainstWinner(request, listing, from, r);
      } else if listing[from].atRoot {
        RootStep(request, listing, from);
      } else {
        PlainStep(request, listing, from);
      }
    }
  }

  /** The choice has maximal rank among all candidates, the root counting as 0, iff the root does not win by its own name. */
  lemma ChoiceIsMaximal(request: Version, listing: seq<Candidate>)
    requires OneRoot(listing)
    ensures IsBest(request, listing, 0, ChooseFrom(request, listing, 0)) <==> !RootWinsByName(request, listing, 0)
  {
    ChooseFromMeans(request, listing, 0);
    if r: nat :| WinsByName(request, listing, 0, r) {
      var i :| r < i < |listing| && Score(request, listing[i]) >= 0;
      assert Rank(request, listing[r].version.value) > 0 == Score(request, listing[r]);
      WinnerIsNotBest(request, listing, r);
    }
  }

  lemma WinnerIsNotBest(request: Version, listing: seq<Candidate>, r: nat)
    requires OneRoot(listing) && WinsByName(request, listing, 0, r) && Rank(request, listing[r].version.value) > 0
    ensures !IsBest(request, listing, 0, Best(Rank(request, listing[r].version.value), Some(listing[r])))
  {
    assert forall i :: 0 <= i < |listing| && listing[i] == listing[r] ==> Score(request, listing[i]) == 0;
  }

  /** The search fails iff there is no root candidate and every other is malformed or a mismatch. */
  lemma {:induction false} FailsOnlyWithoutCandidates(request: Version, listing: seq<Candidate>, from: nat)
    requires from <= |listing|
    ensures ChooseFrom(request, listing, from).choice.None?
      <==> forall i :: from <= i < |listing| ==> Score(request, listing[i]) == -1
    ensures ChooseFrom(request, listing, from).choice.None? <==> ChooseFrom(request, listing, from).rank == -1
    ensures ChooseFrom(request, listing, from).rank >= -1
    decreases |listing| - from
  {
    if from == |listing| {
    } else {
      FailsOnlyWithoutCandidates(request, listing, from + 1);
      assert listing[from].version.Some? ==> Rank(request, listing[from].version.value) >= -1 by {
        if listing[from].version.Some? {
          RankFromMeans(request, listing[from].version.value, 0);
        }
      }
    }
  }

  /** The rank of the choice, and its version when that rank is above 0. */
  lemma ChoiceVersion(request: Version, listing: seq<Candidate>)
    requires OneRoot(listing)
    ensures var b := ChooseFrom(request, listing, 0);
      && (forall i :: 0 <= i < |listing| ==> Score(request, listing[i]) <= b.rank)
      && (b.rank > 0 ==>
            b.choice.Some? && b.choice.value.version.Some? && Rank(request, b.choice.value.version.value) == b.rank)
  {
    ChooseFromMeans(request, listing, 0);
    if r: nat :| IsWinner(request, listing, 0, r, ChooseFrom(request, listing, 0)) {
      var i :| r < i < |listing| && Score(request, listing[i]) >= 0;
    }
  }

  /** A choice of rank above 0 is the longest version prefix: every directory below whose version is a prefix of the request is one of the choice. */
  lemma ChoiceIsLongestPrefix(request: Version, listing: seq<Candidate>, c: Candidate)
    requires OneRoot(listing) && c in listing && !c.atRoot && c.version.Some?
    requires ChooseFrom(request, listing, 0).rank > 0
    ensures var b := ChooseFrom(request, listing, 0);
      && b.choice.Some? && b.choice.value.version.Some? && IsVersionPrefix(b.choice.value.version.value, request)
      && (IsVersionPrefix(c.version.value, request) ==> IsVersionPrefix(c.version.value, b.choice.value.version.value))
  {
    ChoiceVersion(request, listing);
    var chosen := ChooseFrom(request, listing, 0).choice.value.version.value;
    RankFixesVersion(request, chosen);
    RankFixesVersion(request, c.version.value);
    assert Score(request, c) <= Rank(request, chosen);
    if IsVersionPrefix(c.version.value, request) {
      assert c.version.value == Truncate(chosen, Rank(request, c.version.value));
    }
  }

  /** The root wins by its own name with a rank that no other candidate has. */
  ghost predicate RootWinsAlone(request: Version, listing: seq<Candidate>) {
    exists r: nat :: WinsAlone(request, listing, r)
  }

  predicate WinsAlone(request: Version, listing: seq<Candidate>, r: nat) {
    && WinsByName(request, listing, 0, r)
    && forall i :: 0 <= i < r ==> Score(request, listing[i]) < Rank(request, listing[r].version.value)
  }

  /** Unless the root wins alone, the rank of the choice is that of some candidate. */
  lemma RankIsAScore(request: Version, listing: seq<Candidate>)
    requires OneRoot(listing) && !RootWinsAlone(request, listing)
    ensures var b := ChooseFrom(request, listing, 0);
      b.rank == -1 || exists i :: 0 <= i < |listing| && Score(request, listing[i]) == b.rank
  {
    ChooseFromMeans(request, listing, 0);
    if r: nat :| IsWinner(request, listing, 0, r, ChooseFrom(request, listing, 0)) {
      assert !WinsAlone(request, listing, r);
      var i :| 0 <= i < r && Score(request, listing[i]) >= Rank(request, listing[r].version.value);
      assert Score(request, listing[i]) == ChooseFrom(request, listing, 0).rank;
    }
  }

  /** If it does, every candidate's score is below the rank of the choice, which is its own. */
  lemma AloneIsAbove(request: Version, listing: seq<Candidate>)
    requires OneRoot(listing) && RootWinsAlone(request, listing)
    ensures var b := ChooseFrom(request, listing, 0);
      && (forall i :: 0 <= i < |listing| ==> Score(request, listing[i]) < b.rank)
      && exists r :: 0 <= r < |listing| && listing[r].atRoot && listing[r].version.Some? && Rank(request, listing[r].version.value) == b.rank
  {
    var r: nat :| WinsAlone(request, listing, r);
    WinnerIsChosen(request, listing, r);
    var k :| r < k < |listing| && Score(request, listing[k]) >= 0;
    assert Score(request, listing[r]) == 0;
  }

  lemma WinnerIsChosen(request: Version, listing: seq<Candidate>, r: nat)
    requires OneRoot(listing) && WinsByName(request, listing, 0, r)
    ensures IsWinner(request, listing, 0, r, ChooseFrom(request, listing, 0))
  {
    ChooseFromMeans(request, listing, 0);
    var q: nat :| IsWinner(request, listing, 0, q, ChooseFrom(request, listing, 0));
    assert q == r;
  }

  ghost predicate SameFiles(a: seq<Candidate>, b: seq<Candidate>) {
    OneRoot(a) && OneRoot(b) && forall c :: c in a <==> c in b
  }

  lemma ScoresBelow(request: Version, a: seq<Candidate>, b: seq<Candidate>)
    requires SameFiles(a, b) && !RootWinsAlone(request, a)
    ensures ChooseFrom(request, a, 0).rank <= ChooseFrom(request, b, 0).rank
  {
    RankIsAScore(request, a);
    ChoiceVersion(request, b);
    FailsOnlyWithoutCandidates(request, b, 0);
    if i :| 0 <= i < |a| && Score(request, a[i]) == ChooseFrom(request, a, 0).rank {
      assert a[i] in b;
    }
  }

  lemma BothAlone(request: Version, a: seq<Candidate>, b: seq<Candidate>)
    requires SameFiles(a, b) && RootWinsAlone(request, a) && RootWinsAlone(request, b)
    ensures ChooseFrom(request, a, 0).rank == ChooseFrom(request, b, 0).rank
  {
    AloneIsAbove(request, a);
    AloneIsAbove(request, b);
    var q :| 0 <= q < |a| && a[q].atRoot && a[q].version.Some? && Rank(request, a[q].version.value) == ChooseFrom(request, a, 0).rank;
    var r :| 0 <= r < |b| && b[r].atRoot && b[r].version.Some? && Rank(request, b[r].version.value) == ChooseFrom(request, b, 0).rank;
    assert a[q] in b && b[r] in b;
  }

  lemma OneAlone(request: Version, a: seq<Candidate>, b: seq<Candidate>)
    requires SameFiles(a, b) && RootWinsAlone(request, a) && !RootWinsAlone(request, b)
    ensures ChooseFrom(request, a, 0).rank > ChooseFrom(request, b, 0).rank
  {
    AloneIsAbove(request, a);
    RankIsAScore(request, b);
    if i :| 0 <= i < |b| && Score(request, b[i]) == ChooseFrom(request, b, 0).rank {
      assert b[i] in a;
    } else {
      var r :| 0 <= r < |a| && a[r].atRoot;
      assert Score(request, a[r]) == 0;
    }
  }

  /**
   Two listings of the same files choose the same rank, and then, above 0, the same version, if
   and only if the root wins alone by its own name in both or in neither.
   */
  lemma OrderDoesNotMatter(request: Version, a: seq<Candidate>, b: seq<Candidate>)
    requires SameFiles(a, b)
    ensures var x, y := ChooseFrom(request, a, 0), ChooseFrom(request, b, 0);
      && (x.rank == y.rank <==> (RootWinsAlone(request, a) <==> RootWinsAlone(request, b)))
      && (x.rank == y.rank && x.rank > 0 ==>
            x.choice.Some? && y.choice.Some? && x.choice.value.version == y.choice.value.version)
  {
    var x, y := ChooseFrom(request, a, 0), ChooseFrom(request, b, 0);
    if RootWinsAlone(request, a) && RootWinsAlone(request, b) {
      BothAlone(request, a, b);
    } else if RootWinsAlone(request, a) {
      OneAlone(request, a, b);
    } else if RootWinsAlone(request, b) {
      OneAlone(request, b, a);
    } else {
      ScoresBelow(request, a, b);
      ScoresBelow(request, b, a);
    }
    ChoiceVersion(request, a);
    ChoiceVersion(request, b);
    if x.rank == y.rank && x.rank > 0 {
      RankFixesVersion(request, x.choice.value.version.value);
      RankFixesVersion(request, y.choice.value.version.value);
    }
  }

  /** At rank 0 it does: the root and a directory of another major version win in turn. */
  lemma OrderMattersAtRankZero()
    ensures var request := Parts(Some("ces"), "19", Some("2"), None, None);
      var root := Candidate("container.yaml", true, None);
      var other := Candidate("17/container.yaml", false, Some(Parts(None, "17", None, None, None)));
      && ChooseFrom(request, [root, other], 0) == Best(0, Some(other))
      && ChooseFrom(request, [other, root], 0) == Best(0, Some(root))
  {
    var request := Parts(Some("ces"), "19", Some("2"), None, None);
    var root := Candidate("container.yaml", true, None);
    var other := Candidate("17/container.yaml", false, Some(Parts(None, "17", None, None, None)));
    RankZeroIgnoresNumbers(request, other.version.value);
    assert ChooseFrom(request, [root, other], 2) == Best(-1, None);
    assert ChooseFrom(request, [other, root], 2) == Best(-1, None);
    assert ChooseFrom(request, [root, other], 1) == Best(0, Some(other));
    assert ChooseFrom(request, [other, root], 1) == Best(0, Some(root));
  }

  /** And if the searched directory is itself named like the request, it matters at every rank: the root may lose to a shorter version. */
  lemma OrderMattersForAVersionedRoot()
    ensures var request := Parts(None, "19", Some("2"), None, None);
      var root := Candidate("container.yaml", true, Some(request));
      var other := Candidate("19/container.yaml", false, Some(Parts(None, "19", None, None, None)));
      && ChooseFrom(request, [other, root], 0) == Best(2, Some(other))
      && ChooseFrom(request, [root, other], 0) == Best(5, Some(root))
  {
    var request := Parts(None, "19", Some("2"), None, None);
    var root := Candidate("container.yaml", true, Some(request));
    var other := Candidate("19/container.yaml", false, Some(Parts(None, "19", None, None, None)));
    UnrollRank(request, request);
    UnrollRank(request, other.version.value);
    assert ChooseFrom(request, [other, root], 2) == Best(-1, None);
    assert ChooseFrom(request, [root, other], 2) == Best(-1, None);
    assert ChooseFrom(request, [other, root], 1) == Best(0, Some(root));
    assert ChooseFrom(request, [root, other], 1) == Best(2, Some(other));
  }
}
