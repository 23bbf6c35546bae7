/**
 Short task ids of `cbsd-rs/cbc/src/periodic.rs`: how many dash-separated groups the listing
 shows, and how a typed prefix is resolved to a task.
 */
module ShortIds {
  import opened Wrappers

  /** Where the n-th dash from position i is, or the end. */
  function Cut(id: string, n: nat, i: nat): nat
    requires n >= 1 && i <= |id|
    ensures i <= Cut(id, n, i) <= |id|
    decreases |id| - i
  {
    if i == |id| then i
    else if id[i] != '-' then Cut(id, n, i + 1)
    else if n == 1 then i
    else Cut(id, n - 1, i + 1)
  }

  /** The first n groups. */
  function Truncated(id: string, n: nat): string
    requires n >= 1
  {
    id[..Cut(id, n, 0)]
  }

  ghost predicate Apart(ids: seq<string>, n: nat)
    requires n >= 1
  {
    forall i, j :: 0 <= i < j < |ids| ==> Truncated(ids[i], n) != Truncated(ids[j], n)
  }

  /** The inner loop: every truncation is inserted, up to the first that is there already. */
  method AllInserted(ids: seq<string>, n: nat) returns (all: bool)
    requires n >= 1
    ensures all <==> Apart(ids, n)
  {
    var seen: set<string> := {};
    for k := 0 to |ids|
      invariant forall s :: s in seen <==> exists i :: 0 <= i < k && s == Truncated(ids[i], n)
      invariant forall i, j :: 0 <= i < j < k ==> Truncated(ids[i], n) != Truncated(ids[j], n)
    {
      var short := Truncated(ids[k], n);
      if short in seen {
        return false;
      }
      seen := seen + {short};
    }
    return true;
  }

  /** The least number of groups that tells all ids apart, or 5 if none up to 5 does. */
  method MinUniqueComponents(ids: seq<string>) returns (r: nat)
    ensures 1 <= r <= 5
    ensures forall m :: 1 <= m < r ==> !Apart(ids, m)
    ensures r < 5 ==> Apart(ids, r)
  {
    for n := 1 to 6
      invariant forall m :: 1 <= m < n ==> !Apart(ids, m)
    {
      var all := AllInserted(ids, n);
      if all {
        return n;
      }
    }
    return 5;
  }

  // --- UUIDs ---

  /** The text format of section 4 of RFC 9562, as far as its dashes go. */
  predicate IsUuid(id: string) {
    |id| == 36 && forall i :: 0 <= i < 36 ==> (id[i] == '-' <==> i == 8 || i == 13 || i == 18 || i == 23)
  }

  function GroupEnd(n: nat): nat
    requires 1 <= n <= 5
  {
    if n < 5 then 5 * n + 3 else 36
  }

  lemma {:induction false} SkipToDash(id: string, n: nat, i: nat, j: nat)
    requires n >= 1 && i <= j <= |id| && forall k :: i <= k < j ==> id[k] != '-'
    ensures Cut(id, n, i) == Cut(id, n, j)
    decreases j - i
  {
    if i == j {
    } else {
      SkipToDash(id, n, i + 1, j);
    }
  }

  /** The groups of every UUID end at the same places. */
  lemma CutOfUuid(id: string, n: nat)
    requires IsUuid(id) && 1 <= n <= 5
    ensures Cut(id, n, 0) == GroupEnd(n)
  {
    SkipToDash(id, n, 0, 8);
    if n > 1 {
      SkipToDash(id, n - 1, 9, 13);
    }
    if n > 2 {
      SkipToDash(id, n - 2, 14, 18);
    }
    if n > 3 {
      SkipToDash(id, n - 3, 19, 23);
    }
    if n > 4 {
      SkipToDash(id, n - 4, 24, 36);
    }
  }

  ghost predicate DistinctUuids(ids: seq<string>) {
    && (forall i :: 0 <= i < |ids| ==> IsUuid(ids[i]))
    && forall i, j :: 0 <= i < j < |ids| ==> ids[i] != ids[j]
  }

  /** Five groups are the whole UUID, so the search never fails on distinct UUIDs. */
  lemma FiveGroupsTellApart(ids: seq<string>)
    requires DistinctUuids(ids)
    ensures Apart(ids, 5)
  {
    forall i, j | 0 <= i < j < |ids|
      ensures Truncated(ids[i], 5) != Truncated(ids[j], 5)
    {
      CutOfUuid(ids[i], 5);
      CutOfUuid(ids[j], 5);
      assert ids[i][..36] == ids[i] && ids[j][..36] == ids[j];
    }
  }

  // --- Resolving ---

  datatype Fetched = Listed(ids: seq<string>) | ApiError(status: nat) | OtherError

  datatype Error = NoMatch | Ambiguous(candidates: seq<string>) | FetchFailed(fetched: Fetched)

  /** The listed ids that start with the prefix, in order. */
  function Matching(ids: seq<string>, prefix: string, k: nat): seq<string>
    requires k <= |ids|
  {
    if k == 0 then []
    else if prefix <= ids[k - 1] then Matching(ids, prefix, k - 1) + [ids[k - 1]]
    else Matching(ids, prefix, k - 1)
  }

  function Resolve(fetched: Fetched, prefix: string): Result<string, Error> {
    match fetched
    case ApiError(status) => if status == 403 then Ok(prefix) else Err(FetchFailed(fetched))
    case OtherError => Err(FetchFailed(fetched))
    case Listed(ids) =>
      var found := Matching(ids, prefix, |ids|);
      if |found| == 0 then Err(NoMatch) else if |found| == 1 then Ok(found[0]) else Err(Ambiguous(found))
  }

  lemma {:induction false} OnlyOneMatches(ids: seq<string>, prefix: string, k: nat, i: nat)
    requires k <= |ids| && i < |ids| && prefix <= ids[i]
    requires forall j :: 0 <= j < |ids| && j != i ==> !(prefix <= ids[j])
    ensures Matching(ids, prefix, k) == if i < k then [ids[i]] else []
  {
    if k == 0 {
    } else {
      OnlyOneMatches(ids, prefix, k - 1, i);
    }
  }

  /** A prefix resolves to an id iff exactly one listed id starts with it. */
  lemma ResolvesIffUnique(ids: seq<string>, prefix: string, id: string)
    ensures Resolve(Listed(ids), prefix) == Ok(id)
      <==> exists i :: 0 <= i < |ids| && ids[i] == id && prefix <= id
                       && forall j :: 0 <= j < |ids| && j != i ==> !(prefix <= ids[j])
  {
    if i :| 0 <= i < |ids| && ids[i] == id && prefix <= id && forall j :: 0 <= j < |ids| && j != i ==> !(prefix <= ids[j]) {
      OnlyOneMatches(ids, prefix, |ids|, i);
    } else if Resolve(Listed(ids), prefix) == Ok(id) {
      OneMatchIsUnique(ids, prefix, |ids|);
    }
  }

  lemma {:induction false} NoMatches(ids: seq<string>, prefix: string, k: nat)
    requires k <= |ids| && Matching(ids, prefix, k) == []
    ensures forall j :: 0 <= j < k ==> !(prefix <= ids[j])
  {
    if k == 0 {
    } else {
      NoMatches(ids, prefix, k - 1);
    }
  }

  lemma {:induction false} OneMatchIsUnique(ids: seq<string>, prefix: string, k: nat)
    requires k <= |ids| && |Matching(ids, prefix, k)| == 1
    ensures exists i :: 0 <= i < k && ids[i] == Matching(ids, prefix, k)[0] && prefix <= ids[i]
                        && forall j :: 0 <= j < k && j != i ==> !(prefix <= ids[j])
  {
    if prefix <= ids[k - 1] {
      NoMatches(ids, prefix, k - 1);
    } else {
      OneMatchIsUnique(ids, prefix, k - 1);
    }
  }

  /** The candidates of an ambiguous prefix are the ids that start with it, each as often as listed and in that order. */
  lemma {:induction false} MatchingInOrder(a: seq<string>, b: seq<string>, prefix: string, k: nat)
    requires k <= |b|
    ensures Matching(a + b, prefix, |a| + k) == Matching(a, prefix, |a|) + Matching(b, prefix, k)
  {
    if k == 0 {
      MatchingIsLocal(a, b, prefix, |a|);
    } else {
      MatchingInOrder(a, b, prefix, k - 1);
      assert (a + b)[|a| + k - 1] == b[k - 1];
    }
  }

  lemma {:induction false} MatchingIsLocal(a: seq<string>, b: seq<string>, prefix: string, k: nat)
    requires k <= |a|
    ensures Matching(a + b, prefix, k) == Matching(a, prefix, k)
  {
    if k == 0 {
    } else {
      MatchingIsLocal(a, b, prefix, k - 1);
    }
  }

  lemma {:induction false} MatchingHolds(ids: seq<string>, prefix: string, k: nat, id: string)
    requires k <= |ids|
    ensures id in Matching(ids, prefix, k) <==> prefix <= id && exists i :: 0 <= i < k && ids[i] == id
  {
    if k == 0 {
    } else {
      MatchingHolds(ids, prefix, k - 1, id);
    }
  }

  /** A prefix is taken as it stands if and only if listing is forbidden; it fails with no match iff no id starts with it. */
  lemma ResolveOutcomes(fetched: Fetched, prefix: string)
    ensures fetched.ApiError? && fetched.status == 403 ==> Resolve(fetched, prefix) == Ok(prefix)
    ensures !fetched.Listed? && fetched != ApiError(403) ==> Resolve(fetched, prefix) == Err(FetchFailed(fetched))
    ensures fetched.Listed? ==>
      (Resolve(fetched, prefix) == Err(NoMatch) <==> forall i :: 0 <= i < |fetched.ids| ==> !(prefix <= fetched.ids[i]))
    ensures Resolve(fetched, prefix).Err? && Resolve(fetched, prefix).error.Ambiguous? ==>
      fetched.Listed? && |Resolve(fetched, prefix).error.candidates| > 1
      && forall id :: id in Resolve(fetched, prefix).error.candidates <==> id in fetched.ids && prefix <= id
  {
    if fetched.Listed? {
      var ids := fetched.ids;
      forall id
        ensures id in Matching(ids, prefix, |ids|) <==> id in ids && prefix <= id
      {
        MatchingHolds(ids, prefix, |ids|, id);
      }
      if Matching(ids, prefix, |ids|) == [] {
        NoMatches(ids, prefix, |ids|);
      } else {
        assert Matching(ids, prefix, |ids|)[0] in Matching(ids, prefix, |ids|);
      }
    }
  }

  /** A displayed short id, typed back on the same list, resolves to exactly its task. */
  lemma ShortIdResolves(ids: seq<string>, n: nat, k: nat)
    requires DistinctUuids(ids) && 1 <= n <= 5 && Apart(ids, n) && k < |ids|
    ensures Resolve(Listed(ids), Truncated(ids[k], n)) == Ok(ids[k])
  {
    var short := Truncated(ids[k], n);
    CutOfUuid(ids[k], n);
    forall j | 0 <= j < |ids| && j != k
      ensures !(short <= ids[j])
    {
      CutOfUuid(ids[j], n);
      assert Truncated(ids[j], n) != short;
      assert Truncated(ids[j], n) == ids[j][..|short|];
    }
    OnlyOneMatches(ids, short, |ids|, k);
  }

  /** The listing shows one short id per task, and each of them can be typed back. */
  method ShowShortIds(ids: seq<string>) returns (n: nat, shown: seq<string>)
    ensures 1 <= n <= 5 && |shown| == |ids| && forall k :: 0 <= k < |ids| ==> shown[k] == Truncated(ids[k], n)
    ensures DistinctUuids(ids) ==> Apart(ids, n) && forall m :: 1 <= m < n ==> !Apart(ids, m)
    ensures DistinctUuids(ids) ==> forall k :: 0 <= k < |ids| ==> Resolve(Listed(ids), shown[k]) == Ok(ids[k])
  {
    n := MinUniqueComponents(ids);
    shown := [];
    for k := 0 to |ids|
      invariant |shown| == k && forall i :: 0 <= i < k ==> shown[i] == Truncated(ids[i], n)
    {
      shown := shown + [Truncated(ids[k], n)];
    }
    if DistinctUuids(ids) {
      FiveGroupsTellApart(ids);
      forall k | 0 <= k < |ids|
        ensures Resolve(Listed(ids), shown[k]) == Ok(ids[k])
      {
        ShortIdResolves(ids, n, k);
      }
    }
  }

  /** For ids of other shapes it may fail: "a" and "ab" differ, but the first starts the second. */
  lemma OtherIdsMayBeAmbiguous()
    ensures var ids := ["a-b", "ab"];
      Apart(ids, 1) && Truncated(ids[0], 1) == "a" && Resolve(Listed(ids), "a") == Err(Ambiguous(ids))
  {
    var ids := ["a-b", "ab"];
    assert Cut("a-b", 1, 1) == 1;
    assert Cut("ab", 1, 2) == 2;
    assert Cut("ab", 1, 1) == 2;
    assert Matching(ids, "a", 0) == [];
    assert Matching(ids, "a", 1) == ["a-b"];
    assert Matching(ids, "a", 2) == ids;
  }
}
