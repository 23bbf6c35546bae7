/** Scope patterns of `cbsd-rs/cbsd-server/src/scopes.rs`: matching a value, and covering a channel. */
module Scopes {
  function Channel(channel: string, kind: string): string {
    channel + "/" + kind
  }

  predicate EndsWithStar(pattern: string) {
    pattern != "" && pattern[|pattern| - 1] == '*'
  }

  predicate PatternMatches(pattern: string, value: string) {
    if pattern == "*" then true
    else if EndsWithStar(pattern) then pattern[..|pattern| - 1] <= value
    else pattern == value
  }

  predicate CoversChannel(pattern: string, channel: string) {
    pattern == "*" || channel + "/" <= pattern
  }

  /** The pattern accepts some value of the channel. */
  ghost predicate AcceptsSome(pattern: string, channel: string) {
    exists kind :: PatternMatches(pattern, Channel(channel, kind))
  }

  /** A star that does not follow the channel's slash, but cuts the channel name short. */
  predicate StarInsideName(pattern: string, channel: string) {
    pattern != "*" && EndsWithStar(pattern) && pattern[..|pattern| - 1] <= channel
  }

  lemma CoveredAccepts(pattern: string, channel: string)
    requires CoversChannel(pattern, channel)
    ensures AcceptsSome(pattern, channel)
  {
    if pattern != "*" {
      var n := |channel| + 1;
      var rest := if EndsWithStar(pattern) then pattern[n..|pattern| - 1] else pattern[n..];
      assert pattern[..n] == channel + "/";
      assert Channel(channel, rest) == if EndsWithStar(pattern) then pattern[..|pattern| - 1] else pattern;
      assert PatternMatches(pattern, Channel(channel, rest));
    } else {
      assert PatternMatches(pattern, Channel(channel, ""));
    }
  }

  lemma StarInsideNameAccepts(pattern: string, channel: string)
    requires StarInsideName(pattern, channel)
    ensures AcceptsSome(pattern, channel) && !CoversChannel(pattern, channel)
  {
    assert PatternMatches(pattern, Channel(channel, ""));
  }

  lemma AcceptedIsCovered(pattern: string, channel: string, kind: string)
    requires PatternMatches(pattern, Channel(channel, kind))
    ensures CoversChannel(pattern, channel) || StarInsideName(pattern, channel)
  {
    var value := Channel(channel, kind);
    assert value[..|channel| + 1] == channel + "/";
    if pattern != "*" && EndsWithStar(pattern) {
      var prefix := pattern[..|pattern| - 1];
      if |prefix| <= |channel| {
        assert prefix == value[..|prefix|] == channel[..|prefix|];
      } else {
        assert prefix[..|channel| + 1] == value[..|channel| + 1];
      }
    }
  }

  /** Covering a channel means accepting some value of it, for every pattern and channel, iff the star is not inside the name. */
  lemma CoversIsExact(pattern: string, channel: string)
    ensures (CoversChannel(pattern, channel) <==> AcceptsSome(pattern, channel)) <==> !StarInsideName(pattern, channel)
    ensures CoversChannel(pattern, channel) ==> AcceptsSome(pattern, channel)
  {
    if CoversChannel(pattern, channel) {
      CoveredAccepts(pattern, channel);
    }
    if StarInsideName(pattern, channel) {
      StarInsideNameAccepts(pattern, channel);
    } else if kind :| PatternMatches(pattern, Channel(channel, kind)) {
      AcceptedIsCovered(pattern, channel, kind);
    }
  }

  /** For instance `ce*` accepts a value of the channel `ces` and does not cover it. */
  lemma StarCutsName()
    ensures PatternMatches("ce*", Channel("ces", "dev")) && !CoversChannel("ce*", "ces")
  {
    assert "ce*"[..2] == "ce";
    assert Channel("ces", "dev")[..2] == "ce";
    assert |"ces" + "/"| > |"ce*"|;
  }

  /** In particular for a channel name without slash and a pattern that is a lone star, ends in a slash and star, or has no final star. */
  lemma DocumentedPatterns(pattern: string, channel: string)
    requires '/' !in channel
    requires pattern == "*" || !EndsWithStar(pattern) || (|pattern| > 1 && pattern[|pattern| - 2] == '/')
    ensures CoversChannel(pattern, channel) <==> AcceptsSome(pattern, channel)
  {
    CoversIsExact(pattern, channel);
    SlashBeforeStar(pattern, channel);
  }

  lemma SlashBeforeStar(pattern: string, channel: string)
    requires |pattern| > 1 ==> pattern[|pattern| - 2] == '/' || !EndsWithStar(pattern)
    ensures StarInsideName(pattern, channel) ==> '/' in channel
  {
    if StarInsideName(pattern, channel) {
      assert channel[|pattern| - 2] == '/';
    }
  }
}
