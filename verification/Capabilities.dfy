/**
 The capability lists of `cbsd/cbslib/core/permissions.py`: an ordered list of granting and
 revoking patterns is parsed into a set of flags, and a set of flags is printed as a list.
 The pattern matcher is a parameter.
 */
module Capabilities {
  import opened Wrappers

  /** Whether a pattern matches a name from its start; None when the pattern is not valid. */
  type Matcher = (string, string) -> Option<bool>

  datatype Error = UnknownCap(name: string) | BadPattern(pattern: string)

  // --- Names ---

  function LowerChar(c: char): char {
    if c == '_' then ':' else if 'A' <= c <= 'Z' then c - 'A' + 'a' else c
  }

  function UpperChar(c: char): char {
    if c == ':' then '_' else if 'a' <= c <= 'z' then c - 'a' + 'A' else c
  }

  /** `BUILDS_LIST_OWN` is written `builds:list:own`. */
  function CanonicalName(member: string): string {
    seq(|member|, i requires 0 <= i < |member| => LowerChar(member[i]))
  }

  function MemberName(name: string): string {
    seq(|name|, i requires 0 <= i < |name| => UpperChar(name[i]))
  }

  predicate PlainChar(c: char) {
    c != ':' && !('a' <= c <= 'z')
  }

  /** The canonical name leads back to the member iff the member's name has no lower-case letter and no colon. */
  lemma NameRoundTrip(member: string)
    ensures MemberName(CanonicalName(member)) == member <==> forall i :: 0 <= i < |member| ==> PlainChar(member[i])
  {
    var back := MemberName(CanonicalName(member));
    assert |back| == |member|;
    assert forall i :: 0 <= i < |member| ==> back[i] == UpperChar(LowerChar(member[i]));
    assert forall c: char :: UpperChar(LowerChar(c)) == c <==> PlainChar(c);
  }

  /** The members of a flag class: distinct plain names, none of them ALL, none starting with a dash. */
  ghost predicate Members(ms: seq<string>) {
    && (forall i, j :: 0 <= i < j < |ms| ==> ms[i] != ms[j])
    && (forall i :: 0 <= i < |ms| ==> Plain(ms[i]))
  }

  predicate Plain(m: string) {
    m != "" && m[0] != '-' && m != "ALL" && forall i :: 0 <= i < |m| ==> PlainChar(m[i])
  }

  function GetCap(ms: seq<string>, name: string): Result<set<string>, Error> {
    if name == "all" then Ok(set m | m in ms)
    else if MemberName(name) in ms then Ok({MemberName(name)})
    else Err(UnknownCap(name))
  }

  lemma CanonicalIsNotSpecial(m: string)
    requires Plain(m)
    ensures CanonicalName(m) != "all" && CanonicalName(m) != "" && CanonicalName(m)[0] != '-'
    ensures MemberName(CanonicalName(m)) == m
  {
    NameRoundTrip(m);
    assert CanonicalName(m)[0] == LowerChar(m[0]);
    assert MemberName("all") == "ALL";
  }

  /** `get_cap` undoes `get_canonical_name` for every member. */
  lemma GetCapOfCanonical(ms: seq<string>, m: string)
    requires Members(ms) && m in ms
    ensures GetCap(ms, CanonicalName(m)) == Ok({m})
  {
    CanonicalIsNotSpecial(m);
  }

  /** The name `all` stands for every member, a member's name in either case for that member, and any other name is refused. */
  lemma GetCapCases(ms: seq<string>, name: string)
    ensures GetCap(ms, name).Ok? <==> name == "all" || MemberName(name) in ms
    ensures GetCap(ms, name).Ok? ==>
      forall m :: m in GetCap(ms, name).value <==> m in ms && (name == "all" || m == MemberName(name))
    ensures GetCap(ms, name).Err? ==> GetCap(ms, name).error == UnknownCap(name)
  {
  }

  // --- Expanding patterns ---

  predicate Inverted(v: string) {
    v != "" && v[0] == '-'
  }

  function Pattern(v: string): string {
    var entry := if Inverted(v) then v[1..] else v;
    if entry == "all" then ".*" else entry
  }

  function Signed(v: string, name: string): string {
    if Inverted(v) then "-" + name else name
  }

  predicate Hits(re: Matcher, v: string, m: string) {
    re(Pattern(v), CanonicalName(m)) == Some(true)
  }

  predicate Breaks(re: Matcher, v: string, m: string) {
    re(Pattern(v), CanonicalName(m)).None?
  }

  /** What one pattern expands to, over the first k members. */
  function Expand(re: Matcher, ms: seq<string>, v: string, k: nat): seq<string>
    requires k <= |ms|
  {
    if k == 0 then []
    else if Hits(re, v, ms[k - 1]) then Expand(re, ms, v, k - 1) + [Signed(v, CanonicalName(ms[k - 1]))]
    else Expand(re, ms, v, k - 1)
  }

  function ExpandAll(re: Matcher, ms: seq<string>, vs: seq<string>, n: nat): seq<string>
    requires n <= |vs|
  {
    if n == 0 then [] else ExpandAll(re, ms, vs, n - 1) + Expand(re, ms, vs[n - 1], |ms|)
  }

  ghost predicate BreaksOnSome(re: Matcher, ms: seq<string>, v: string) {
    exists k :: 0 <= k < |ms| && Breaks(re, v, ms[k])
  }

  /** Some pattern is not valid. */
  ghost predicate Broken(re: Matcher, ms: seq<string>, vs: seq<string>) {
    exists i :: 0 <= i < |vs| && BreaksOnSome(re, ms, vs[i])
  }

  method ExpandOne(re: Matcher, ms: seq<string>, v: string) returns (r: Result<seq<string>, Error>)
    ensures r.Err? <==> BreaksOnSome(re, ms, v)
    ensures r.Ok? ==> r.value == Expand(re, ms, v, |ms|)
  {
    var out: seq<string> := [];
    for k := 0 to |ms|
      invariant out == Expand(re, ms, v, k)
      invariant forall i :: 0 <= i < k ==> !Breaks(re, v, ms[i])
    {
      var name := CanonicalName(ms[k]);
      var m := re(Pattern(v), name);
      if m.None? {
        assert Breaks(re, v, ms[k]);
        return Err(BadPattern(Pattern(v)));
      }
      if m.value {
        out := out + [Signed(v, name)];
      }
    }
    return Ok(out);
  }

  method Process(re: Matcher, ms: seq<string>, vs: seq<string>) returns (r: Result<seq<string>, Error>)
    ensures r.Err? <==> Broken(re, ms, vs)
    ensures r.Ok? ==> r.value == ExpandAll(re, ms, vs, |vs|)
  {
    var out: seq<string> := [];
    for i := 0 to |vs|
      invariant out == ExpandAll(re, ms, vs, i)
      invariant forall j :: 0 <= j < i ==> !BreaksOnSome(re, ms, vs[j])
    {
      var part := ExpandOne(re, ms, vs[i]);
      if part.Err? {
        return Err(part.error);
      }
      out := out + part.value;
    }
    return Ok(out);
  }

  // --- Folding ---

  /** The flags after the given signed names, taken in order. */
  function Fold(s: set<string>, names: seq<string>): set<string>
    decreases |names|
  {
    if names == [] then s
    else
      var rest, last := Fold(s, names[..|names| - 1]), names[|names| - 1];
      if Inverted(last) then rest - {MemberName(last[1..])} else rest + {MemberName(last)}
  }

  lemma {:induction false} FoldAppend(s: set<string>, a: seq<string>, b: seq<string>)
    ensures Fold(s, a + b) == Fold(Fold(s, a), b)
    decreases |b|
  {
    if b == [] {
      assert a + b == a;
    } else {
      assert (a + b)[..|a + b| - 1] == a + b[..|b| - 1];
      FoldAppend(s, a, b[..|b| - 1]);
    }
  }

  /** One pattern adds, or removes, exactly the members it matches. */
  lemma {:induction false} FoldExpand(re: Matcher, ms: seq<string>, v: string, k: nat, s: set<string>, m: string)
    requires Members(ms) && k <= |ms|
    ensures m in Fold(s, Expand(re, ms, v, k)) <==> if m in ms[..k] && Hits(re, v, m) then !Inverted(v) else m in s
  {
    if k == 0 {
    } else {
      FoldExpand(re, ms, v, k - 1, s, m);
      var here := ms[k - 1];
      assert ms[..k] == ms[..k - 1] + [here];
      if Hits(re, v, here) {
        FoldAppend(s, Expand(re, ms, v, k - 1), [Signed(v, CanonicalName(here))]);
        FoldOne(Fold(s, Expand(re, ms, v, k - 1)), v, here);
      }
    }
  }

  lemma FoldOne(s: set<string>, v: string, m: string)
    requires Plain(m)
    ensures Fold(s, [Signed(v, CanonicalName(m))]) == if Inverted(v) then s - {m} else s + {m}
  {
    CanonicalIsNotSpecial(m);
    var last := Signed(v, CanonicalName(m));
    assert Inverted(v) ==> last[1..] == CanonicalName(m);
    var one: seq<string> := [last];
    assert one[..0] == [];
    assert Fold(s, one[..0]) == s;
  }

  /** Among the first n patterns, the last one that matches the member grants it. */
  predicate LastMatchGrants(re: Matcher, vs: seq<string>, n: nat, m: string)
    requires n <= |vs|
  {
    n > 0 && if Hits(re, vs[n - 1], m) then !Inverted(vs[n - 1]) else LastMatchGrants(re, vs, n - 1, m)
  }

  lemma {:induction false} LastMatchIsTheLast(re: Matcher, vs: seq<string>, n: nat, m: string, i: nat)
    requires i < n <= |vs| && Hits(re, vs[i], m) && forall j :: i < j < n ==> !Hits(re, vs[j], m)
    ensures LastMatchGrants(re, vs, n, m) <==> !Inverted(vs[i])
  {
    if i < n - 1 {
      LastMatchIsTheLast(re, vs, n - 1, m, i);
    }
  }

  lemma FoldOneMore(re: Matcher, ms: seq<string>, front: seq<string>, v: string, m: string, all: seq<string>)
    requires Members(ms) && all == front + Expand(re, ms, v, |ms|)
    ensures m in Fold({}, all) <==> if m in ms && Hits(re, v, m) then !Inverted(v) else m in Fold({}, front)
  {
    FoldAppend({}, front, Expand(re, ms, v, |ms|));
    FoldExpand(re, ms, v, |ms|, Fold({}, front), m);
    assert ms[..|ms|] == ms;
  }

  lemma {:induction false} FoldMeansFor(re: Matcher, ms: seq<string>, vs: seq<string>, n: nat, m: string, all: seq<string>)
    requires Members(ms) && n <= |vs| && all == ExpandAll(re, ms, vs, n)
    ensures m in Fold({}, all) <==> m in ms && LastMatchGrants(re, vs, n, m)
  {
    if n == 0 {
    } else {
      var front := ExpandAll(re, ms, vs, n - 1);
      FoldMeansFor(re, ms, vs, n - 1, m, front);
      FoldOneMore(re, ms, front, vs[n - 1], m, all);
    }
  }

  lemma FoldMeans(re: Matcher, ms: seq<string>, vs: seq<string>, n: nat, m: string)
    requires Members(ms) && n <= |vs|
    ensures m in Fold({}, ExpandAll(re, ms, vs, n)) <==> m in ms && LastMatchGrants(re, vs, n, m)
  {
    FoldMeansFor(re, ms, vs, n, m, ExpandAll(re, ms, vs, n));
  }

  /**
   The parser: an error iff some pattern is invalid for some member; otherwise a member is in the
   result iff the last pattern that matches it is a granting one.
   */
  method Parse(re: Matcher, ms: seq<string>, vs: seq<string>) returns (r: Result<set<string>, Error>)
    requires Members(ms)
    ensures r.Err? <==> Broken(re, ms, vs)
    ensures r.Ok? ==> r.value == Parsed(re, ms, vs)
    ensures r.Ok? ==> forall m :: m in r.value <==> m in ms && LastMatchGrants(re, vs, |vs|, m)
  {
    var names := Process(re, ms, vs);
    if names.Err? {
      return Err(names.error);
    }
    AllSigned(re, ms, vs, |vs|);
    var result := FoldNames(ms, names.value);
    forall m
      ensures m in result <==> m in ms && LastMatchGrants(re, vs, |vs|, m)
    {
      FoldMeans(re, ms, vs, |vs|, m);
    }
    return Ok(result);
  }

  /** The second loop: no name in it is unknown, so no lookup fails. */
  method FoldNames(ms: seq<string>, strs: seq<string>) returns (result: set<string>)
    requires Members(ms) && forall str :: str in strs ==> IsSigned(ms, str)
    ensures result == Fold({}, strs)
  {
    result := {};
    for i := 0 to |strs|
      invariant result == Fold({}, strs[..i])
    {
      assert strs[..i + 1][..i] == strs[..i];
      var str := strs[i];
      SignedIsKnown(ms, str);
      if Inverted(str) {
        var cap := GetCap(ms, str[1..]);
        result := result - cap.value;
      } else {
        var cap := GetCap(ms, str);
        result := result + cap.value;
      }
    }
    assert strs[..|strs|] == strs;
  }

  function Parsed(re: Matcher, ms: seq<string>, vs: seq<string>): set<string> {
    Fold({}, ExpandAll(re, ms, vs, |vs|))
  }

  // --- What one more pattern does ---

  lemma ParsedSnoc(re: Matcher, ms: seq<string>, vs: seq<string>, v: string, x: string)
    requires Members(ms)
    ensures x in Parsed(re, ms, vs + [v]) <==> if x in ms && Hits(re, v, x) then !Inverted(v) else x in Parsed(re, ms, vs)
  {
    FoldMeans(re, ms, vs, |vs|, x);
    FoldMeans(re, ms, vs + [v], |vs| + 1, x);
    GrantsIsLocal(re, vs, v, |vs|, x);
  }

  /** A dash takes the members the rest of the pattern matches away, and nothing else. */
  lemma DashRevokes(re: Matcher, ms: seq<string>, vs: seq<string>, p: string, x: string)
    requires Members(ms) && p != "all"
    ensures x in Parsed(re, ms, vs + ["-" + p]) <==> x in Parsed(re, ms, vs) && re(p, CanonicalName(x)) != Some(true)
  {
    assert ("-" + p)[1..] == p;
    ParsedSnoc(re, ms, vs, "-" + p, x);
    FoldMeans(re, ms, vs, |vs|, x);
  }

  /** A pattern without dash adds the members it matches, and nothing else. */
  lemma PlainGrants(re: Matcher, ms: seq<string>, vs: seq<string>, p: string, x: string)
    requires Members(ms) && p != "all" && (p != "" ==> p[0] != '-')
    ensures x in Parsed(re, ms, vs + [p])
      <==> x in Parsed(re, ms, vs) || (x in ms && re(p, CanonicalName(x)) == Some(true))
  {
    ParsedSnoc(re, ms, vs, p, x);
    FoldMeans(re, ms, vs, |vs|, x);
  }

  /** `all` grants every member and `-all` takes every one away. */
  lemma AllAndMinusAll(re: Matcher, ms: seq<string>, vs: seq<string>)
    requires Members(ms) && forall name :: re(".*", name) == Some(true)
    ensures (forall x :: x in Parsed(re, ms, vs + ["all"]) <==> x in ms) && Parsed(re, ms, vs + ["-all"]) == {}
  {
    forall x
      ensures x in Parsed(re, ms, vs + ["all"]) <==> x in ms
      ensures x !in Parsed(re, ms, vs + ["-all"])
    {
      assert "-all"[1..] == "all";
      ParsedSnoc(re, ms, vs, "all", x);
      ParsedSnoc(re, ms, vs, "-all", x);
      FoldMeans(re, ms, vs, |vs|, x);
    }
  }

  /** A name with a dash takes away the members whose names it starts. */
  lemma DashedNameRevokes(re: Matcher, ms: seq<string>, vs: seq<string>, m: string, x: string)
    requires Members(ms) && LiteralsMatchAsPrefix(re, ms) && m in ms
    ensures x in Parsed(re, ms, vs + ["-" + CanonicalName(m)])
      <==> x in Parsed(re, ms, vs) && !(CanonicalName(m) <= CanonicalName(x))
  {
    CanonicalIsNotSpecial(m);
    DashRevokes(re, ms, vs, CanonicalName(m), x);
  }

  /** A pattern with a dash is invalid exactly when the rest of it is. */
  lemma DashKeepsValidity(re: Matcher, ms: seq<string>, p: string)
    requires p != "all"
    ensures BreaksOnSome(re, ms, "-" + p) <==> exists k :: 0 <= k < |ms| && re(p, CanonicalName(ms[k])).None?
  {
    assert ("-" + p)[1..] == p;
    forall k | 0 <= k < |ms|
      ensures Breaks(re, "-" + p, ms[k]) <==> re(p, CanonicalName(ms[k])).None?
    {
    }
  }

  ghost predicate IsSigned(ms: seq<string>, str: string) {
    exists m, v :: m in ms && str == Signed(v, CanonicalName(m))
  }

  lemma SignedIsKnown(ms: seq<string>, str: string)
    requires Members(ms) && IsSigned(ms, str)
    ensures if Inverted(str) then GetCap(ms, str[1..]) == Ok({MemberName(str[1..])})
            else GetCap(ms, str) == Ok({MemberName(str)})
  {
    var m, v :| m in ms && str == Signed(v, CanonicalName(m));
    CanonicalIsNotSpecial(m);
    GetCapOfCanonical(ms, m);
    assert Inverted(v) ==> str[1..] == CanonicalName(m);
  }

  lemma {:induction false} ExpandSigned(re: Matcher, ms: seq<string>, v: string, k: nat)
    requires k <= |ms|
    ensures forall str :: str in Expand(re, ms, v, k) ==> IsSigned(ms, str)
  {
    if k == 0 {
    } else {
      ExpandSigned(re, ms, v, k - 1);
      assert ms[k - 1] in ms;
    }
  }

  lemma {:induction false} AllSigned(re: Matcher, ms: seq<string>, vs: seq<string>, n: nat)
    requires n <= |vs|
    ensures forall str :: str in ExpandAll(re, ms, vs, n) ==> IsSigned(ms, str)
  {
    if n == 0 {
    } else {
      AllSigned(re, ms, vs, n - 1);
      ExpandSigned(re, ms, vs[n - 1], |ms|);
    }
  }

  // --- Printing, and back ---

  /** The canonical names of the flags set, in declaration order. */
  function Printed(ms: seq<string>, caps: set<string>, k: nat): seq<string>
    requires k <= |ms|
  {
    if k == 0 then []
    else if ms[k - 1] in caps then Printed(ms, caps, k - 1) + [CanonicalName(ms[k - 1])]
    else Printed(ms, caps, k - 1)
  }

  /** The names come in the order of the members, each flag once. */
  lemma {:induction false} PrintedInOrder(ms: seq<string>, more: seq<string>, caps: set<string>, k: nat)
    requires k <= |more|
    ensures Printed(ms + more, caps, |ms| + k) == Printed(ms, caps, |ms|) + Printed(more, caps, k)
  {
    if k == 0 {
      PrintedIsLocal(ms, more, caps, |ms|);
    } else {
      PrintedInOrder(ms, more, caps, k - 1);
      assert (ms + more)[|ms| + k - 1] == more[k - 1];
    }
  }

  lemma {:induction false} PrintedIsLocal(ms: seq<string>, more: seq<string>, caps: set<string>, k: nat)
    requires k <= |ms|
    ensures Printed(ms + more, caps, k) == Printed(ms, caps, k)
  {
    if k == 0 {
    } else {
      PrintedIsLocal(ms, more, caps, k - 1);
    }
  }

  /** A canonical name, used as a pattern, has no special characters and matches as a prefix. */
  ghost predicate LiteralsMatchAsPrefix(re: Matcher, ms: seq<string>) {
    forall m, name :: m in ms ==> re(CanonicalName(m), name) == Some(CanonicalName(m) <= name)
  }

  predicate PrefixFree(ms: seq<string>) {
    forall i, j :: 0 <= i < |ms| && 0 <= j < |ms| && i != j ==> !(CanonicalName(ms[i]) <= CanonicalName(ms[j]))
  }

  /** Some flag set among the first k members has a name that is a prefix of `name`. */
  predicate Covers(ms: seq<string>, caps: set<string>, k: nat, name: string)
    requires k <= |ms|
  {
    exists i :: 0 <= i < k && ms[i] in caps && CanonicalName(ms[i]) <= name
  }

  lemma {:induction false} GrantsIsLocal(re: Matcher, vs: seq<string>, v: string, n: nat, m: string)
    requires n <= |vs|
    ensures LastMatchGrants(re, vs + [v], n, m) == LastMatchGrants(re, vs, n, m)
  {
    if n == 0 {
    } else {
      GrantsIsLocal(re, vs, v, n - 1, m);
    }
  }

  lemma LiteralHits(re: Matcher, ms: seq<string>, lit: string, m: string)
    requires Members(ms) && LiteralsMatchAsPrefix(re, ms) && lit in ms
    ensures !Inverted(CanonicalName(lit)) && (Hits(re, CanonicalName(lit), m) <==> CanonicalName(lit) <= CanonicalName(m))
  {
    CanonicalIsNotSpecial(lit);
  }

  lemma GrantsAfterLiteral(re: Matcher, ms: seq<string>, vs: seq<string>, lit: string, m: string)
    requires Members(ms) && LiteralsMatchAsPrefix(re, ms) && lit in ms
    ensures LastMatchGrants(re, vs + [CanonicalName(lit)], |vs| + 1, m)
      <==> CanonicalName(lit) <= CanonicalName(m) || LastMatchGrants(re, vs, |vs|, m)
  {
    GrantsIsLocal(re, vs, CanonicalName(lit), |vs|, m);
    LiteralHits(re, ms, lit, m);
  }

  lemma CoversStep(ms: seq<string>, caps: set<string>, k: nat, name: string)
    requires 0 < k <= |ms|
    ensures Covers(ms, caps, k, name)
      <==> Covers(ms, caps, k - 1, name) || (ms[k - 1] in caps && CanonicalName(ms[k - 1]) <= name)
  {
  }

  /** Reading back a printed list grants a member iff some printed name is a prefix of its own. */
  lemma {:induction false} PrintedGrants(re: Matcher, ms: seq<string>, caps: set<string>, k: nat, m: string)
    requires Members(ms) && LiteralsMatchAsPrefix(re, ms) && k <= |ms|
    ensures LastMatchGrants(re, Printed(ms, caps, k), |Printed(ms, caps, k)|, m) <==> Covers(ms, caps, k, CanonicalName(m))
  {
    if k == 0 {
    } else {
      PrintedGrants(re, ms, caps, k - 1, m);
      CoversStep(ms, caps, k, CanonicalName(m));
      if ms[k - 1] in caps {
        GrantsAfterLiteral(re, ms, Printed(ms, caps, k - 1), ms[k - 1], m);
      }
    }
  }

  lemma ParsedPrint(re: Matcher, ms: seq<string>, caps: set<string>, m: string)
    requires Members(ms) && LiteralsMatchAsPrefix(re, ms)
    ensures m in Parsed(re, ms, Printed(ms, caps, |ms|)) <==> m in ms && Covers(ms, caps, |ms|, CanonicalName(m))
  {
    var vs := Printed(ms, caps, |ms|);
    FoldMeans(re, ms, vs, |vs|, m);
    PrintedGrants(re, ms, caps, |ms|, m);
  }

  /** Parsing the printed list raises nothing and gives the set back. */
  ghost predicate RoundTrips(re: Matcher, ms: seq<string>, caps: set<string>) {
    !Broken(re, ms, Printed(ms, caps, |ms|)) && Parsed(re, ms, Printed(ms, caps, |ms|)) == caps
  }

  lemma {:induction false} PrintedIsLiteral(ms: seq<string>, caps: set<string>, k: nat)
    requires k <= |ms|
    ensures forall v :: v in Printed(ms, caps, k) ==> exists m :: m in ms && v == CanonicalName(m)
  {
    if k == 0 {
    } else {
      PrintedIsLiteral(ms, caps, k - 1);
      assert ms[k - 1] in ms;
    }
  }

  /** A printed list holds only literal names, which are valid patterns. */
  lemma PrintedNeverRaises(re: Matcher, ms: seq<string>, caps: set<string>)
    requires Members(ms) && LiteralsMatchAsPrefix(re, ms)
    ensures !Broken(re, ms, Printed(ms, caps, |ms|))
  {
    var vs := Printed(ms, caps, |ms|);
    PrintedIsLiteral(ms, caps, |ms|);
    forall i, k | 0 <= i < |vs| && 0 <= k < |ms|
      ensures !Breaks(re, vs[i], ms[k])
    {
      assert vs[i] in vs;
      var m :| m in ms && vs[i] == CanonicalName(m);
      CanonicalIsNotSpecial(m);
    }
  }

  predicate Within(ms: seq<string>, caps: set<string>) {
    forall m :: m in caps ==> m in ms
  }

  lemma PrefixFreeRoundTrips(re: Matcher, ms: seq<string>, caps: set<string>)
    requires Members(ms) && LiteralsMatchAsPrefix(re, ms) && PrefixFree(ms) && Within(ms, caps)
    ensures RoundTrips(re, ms, caps)
  {
    PrintedNeverRaises(re, ms, caps);
    forall m
      ensures m in Parsed(re, ms, Printed(ms, caps, |ms|)) <==> m in caps
    {
      ParsedPrint(re, ms, caps, m);
      if m in ms {
        var j :| 0 <= j < |ms| && ms[j] == m;
        assert Covers(ms, caps, |ms|, CanonicalName(ms[j])) <==> m in caps;
      }
    }
  }

  /** Parsing what was printed gives back every set of flags, if and only if no name is a prefix of another. */
  lemma PrintThenParse(re: Matcher, ms: seq<string>)
    requires Members(ms) && LiteralsMatchAsPrefix(re, ms)
    ensures (forall caps: set<string> :: Within(ms, caps) ==> RoundTrips(re, ms, caps)) <==> PrefixFree(ms)
  {
    if PrefixFree(ms) {
      forall caps: set<string> | Within(ms, caps)
        ensures RoundTrips(re, ms, caps)
      {
        PrefixFreeRoundTrips(re, ms, caps);
      }
    } else {
      var i, j :| 0 <= i < |ms| && 0 <= j < |ms| && i != j && CanonicalName(ms[i]) <= CanonicalName(ms[j]);
      var caps := {ms[i]};
      ParsedPrint(re, ms, caps, ms[j]);
      assert Covers(ms, caps, |ms|, CanonicalName(ms[j]));
      assert ms[j] !in caps;
      assert Within(ms, caps) && !RoundTrips(re, ms, caps);
    }
  }

  /** For instance, with members A and AB the list printed for A alone is read as both. */
  lemma PrefixNameGrantsMore(re: Matcher)
    requires LiteralsMatchAsPrefix(re, ["A", "AB"])
    ensures !RoundTrips(re, ["A", "AB"], {"A"})
  {
    var ms := ["A", "AB"];
    assert ms[0] == "A" && ms[1] == "AB";
    assert CanonicalName("A") <= CanonicalName("AB");
    ParsedPrint(re, ms, {"A"}, "AB");
    assert Covers(ms, {"A"}, 2, CanonicalName(ms[1]));
  }

  lemma PrefixOfMembers(a: string, b: string)
    requires Plain(a) && Plain(b) && CanonicalName(a) <= CanonicalName(b)
    ensures a <= b
  {
    CanonicalIsNotSpecial(a);
    CanonicalIsNotSpecial(b);
    forall i | 0 <= i < |a|
      ensures a[i] == b[i]
    {
      assert CanonicalName(a)[i] == CanonicalName(b)[i];
      assert MemberName(CanonicalName(a))[i] == MemberName(CanonicalName(b))[i];
    }
  }

  const AUTHORIZATION_CAPS: seq<string> := [
    "BUILDS_CREATE", "BUILDS_REVOKE_OWN", "BUILDS_REVOKE_ANY", "BUILDS_LIST_OWN", "BUILDS_LIST_ANY",
    "PROJECT_LIST", "PROJECT_MANAGE"]

  const ROUTES_CAPS: seq<string> := [
    "ROUTES_AUTH_PERMISSIONS", "ROUTES_AUTH_LOGIN",
    "ROUTES_BUILDS_NEW", "ROUTES_BUILDS_REVOKE", "ROUTES_BUILDS_STATUS", "ROUTES_BUILDS_INSPECT",
    "ROUTES_PERIODIC_BUILDS_NEW", "ROUTES_PERIODIC_BUILDS_LIST", "ROUTES_PERIODIC_BUILDS_UPDATE"]

  predicate NoneStartsAnother(ms: seq<string>) {
    forall i, j :: 0 <= i < |ms| && 0 <= j < |ms| && i != j ==> !(ms[i] <= ms[j])
  }

  lemma FlagClass(re: Matcher, ms: seq<string>, caps: set<string>)
    requires (forall i :: 0 <= i < |ms| ==> Plain(ms[i])) && NoneStartsAnother(ms)
    requires LiteralsMatchAsPrefix(re, ms) && Within(ms, caps)
    ensures RoundTrips(re, ms, caps)
  {
    forall i, j | 0 <= i < |ms| && 0 <= j < |ms| && i != j
      ensures !(CanonicalName(ms[i]) <= CanonicalName(ms[j])) && ms[i] != ms[j]
    {
      assert !(ms[i] <= ms[j]);
      if CanonicalName(ms[i]) <= CanonicalName(ms[j]) {
        PrefixOfMembers(ms[i], ms[j]);
      }
    }
    PrefixFreeRoundTrips(re, ms, caps);
  }

  lemma Differ(a: string, b: string, k: nat)
    requires k < |a| && k < |b| && a[k] != b[k]
    ensures !(a <= b) && !(b <= a)
  {
  }

  /** Both flag classes of the service have such names, so every set of their flags survives printing and parsing. */
  lemma AuthorizationCapsRoundTrip(re: Matcher, caps: set<string>)
    requires LiteralsMatchAsPrefix(re, AUTHORIZATION_CAPS) && Within(AUTHORIZATION_CAPS, caps)
    ensures RoundTrips(re, AUTHORIZATION_CAPS, caps)
  {
    var ms := AUTHORIZATION_CAPS;
    forall i, j | 0 <= i < j < |ms|
      ensures !(ms[i] <= ms[j]) && !(ms[j] <= ms[i])
    {
      Differ(ms[i], ms[j], if i < 5 <= j then 0 else if i == 0 || j == 6 || (i < 3 <= j) then 8 else if j == 2 then 14 else 12);
    }
    FlagClass(re, ms, caps);
  }

  lemma RoutesCapsApart()
    ensures NoneStartsAnother(ROUTES_CAPS)
  {
    var ms := ROUTES_CAPS;
    forall i, j | 0 <= i < j < |ms|
      ensures !(ms[i] <= ms[j]) && !(ms[j] <= ms[i])
    {
      var k := if i < 2 <= j || i < 6 <= j then 7 else if i == 0 then 12 else if i < 6 then 14 else 23;
      Differ(ms[i], ms[j], k);
    }
  }

  lemma FirstRoutesArePlain()
    ensures forall i :: 0 <= i < 5 ==> Plain(ROUTES_CAPS[i])
  {
  }

  lemma LastRoutesArePlain()
    ensures forall i :: 5 <= i < 9 ==> Plain(ROUTES_CAPS[i])
  {
  }

  lemma RoutesCapsRoundTrip(re: Matcher, caps: set<string>)
    requires LiteralsMatchAsPrefix(re, ROUTES_CAPS) && Within(ROUTES_CAPS, caps)
    ensures RoundTrips(re, ROUTES_CAPS, caps)
  {
    FirstRoutesArePlain();
    LastRoutesArePlain();
    RoutesCapsApart();
    FlagClass(re, ROUTES_CAPS, caps);
  }
}
