/**
 Following a running build's log: the server pages through a Redis stream
 (`cbsd/cbslib/builds/logs.py`) and the client feeds the returned id back
 (`cbc/src/cbc/cmds/logs.py`). Workers append and Redis drops old entries between polls.
 */
module LogFollow {
  import opened Wrappers
  import opened Utf8
  import Tail

  /** A stream entry; an entry may lack the message field. */
  datatype Item = Item(id: nat, msg: Option<Text>)

  /** Every entry ever appended, and how many of the oldest are gone. */
  datatype Stream = Stream(all: seq<Item>, trimmed: nat)

  predicate WellFormed(s: Stream) {
    s.trimmed <= |s.all| && Ascending(s.all)
  }

  /** Stream ids strictly ascend. */
  predicate Ascending(all: seq<Item>) {
    |all| < 2 || (all[|all| - 2].id < all[|all| - 1].id && Ascending(all[..|all| - 1]))
  }

  lemma {:induction false} Ordered(all: seq<Item>, i: nat, j: nat)
    requires Ascending(all) && i < j < |all|
    ensures all[i].id < all[j].id
  {
    if j < |all| - 1 {
      Ordered(all[..|all| - 1], i, j);
    } else if i < j - 1 {
      Ordered(all[..|all| - 1], i, j - 1);
    }
  }

  /** Appending and trimming between two polls. */
  predicate Evolves(before: Stream, after: Stream) {
    before.all <= after.all && before.trimmed <= after.trimmed
  }

  function PageSize(maxMsgs: int): nat {
    if 0 < maxMsgs <= 100 then maxMsgs else 100
  }

  /** How many entries are at or before the cursor; ids ascend, so these are the first ones. */
  function Passed(all: seq<Item>, since: Option<nat>): (k: nat)
    ensures k <= |all|
  {
    if since.None? then 0 else FirstAfter(all, since.value, 0)
  }

  function FirstAfter(all: seq<Item>, id: nat, i: nat): (k: nat)
    requires i <= |all|
    ensures i <= k <= |all|
    ensures forall j :: i <= j < k ==> all[j].id <= id
    ensures k < |all| ==> all[k].id > id
    decreases |all| - i
  {
    if i == |all| || all[i].id > id then i else FirstAfter(all, id, i + 1)
  }

  /** Redis XRANGE from after `since` (or the start) over what is left, at most `count` entries. */
  function Range(entries: seq<Item>, since: Option<nat>, count: nat): seq<Item> {
    var k := Passed(entries, since);
    if k + count < |entries| then entries[k..k + count] else entries[k..]
  }

  /** The messages of a page, in order; entries without one are skipped. */
  function Messages(page: seq<Item>): seq<Text> {
    if page == [] then []
    else
      var last := page[|page| - 1];
      Messages(page[..|page| - 1]) + if last.msg.Some? then [last.msg.value] else []
  }

  function LastId(page: seq<Item>): Option<nat> {
    if page == [] then None else Some(page[|page| - 1].id)
  }

  function Page(s: Stream, since: Option<nat>, maxMsgs: int): seq<Item>
    requires s.trimmed <= |s.all|
  {
    Range(s.all[s.trimmed..], since, PageSize(maxMsgs))
  }

  /** Whether the log has ended, the id to go on from, and the messages. */
  datatype Answer = Answer(ended: bool, lastId: Option<nat>, messages: seq<Text>)

  datatype FollowError = RedisFailed | LogNotFound | LogUnreadable

  /** Redis XREVRANGE, put back in order: the newest entries, at most `count`. */
  function Newest(entries: seq<Item>, count: nat): seq<Item> {
    if count < |entries| then entries[|entries| - count..] else entries
  }

  /** What a build that is not running answers: the newest messages left in Redis, or else the tail of its log file. */
  function EndedAnswer(s: Stream, file: Tail.File, count: nat, fault: Tail.IoFault): Result<Answer, FollowError>
    requires s.trimmed <= |s.all|
  {
    var recent := Messages(Newest(s.all[s.trimmed..], count));
    if recent != [] then Ok(Answer(true, None, recent))
    else match Tail.TailSpec(file, count, fault)
      case Ok(lines) => Ok(Answer(true, None, lines))
      case Err(FileNotFound) => Err(LogNotFound)
      case Err(_) => Err(LogUnreadable)
  }

  method TailOfEnded(s: Stream, count: nat, file: Tail.File, bufferSize: nat, fault: Tail.IoFault)
    returns (r: Result<Answer, FollowError>)
    requires s.trimmed <= |s.all| && bufferSize > 0
    ensures r == EndedAnswer(s, file, count, fault)
  {
    var recent := Extract(Newest(s.all[s.trimmed..], count));
    if |recent| > 0 {
      return Ok(Answer(true, None, recent));
    }
    var lines := Tail.TailFile(file, count, bufferSize, fault);
    match lines
    case Ok(messages) => return Ok(Answer(true, None, messages));
    case Err(FileNotFound) => return Err(LogNotFound);
    case Err(_) => return Err(LogUnreadable);
  }

  /**
   One follow request. A running build is answered with its page; any other with its tail,
   whatever the cursor, and as ended.
   */
  method Follow(running: bool, s: Stream, since: Option<nat>, maxMsgs: int, redisFault: bool,
                file: Tail.File, bufferSize: nat, fileFault: Tail.IoFault)
    returns (r: Result<Answer, FollowError>)
    requires WellFormed(s) && bufferSize > 0
    ensures redisFault ==> r == Err(RedisFailed)
    ensures !redisFault && running ==>
      var page := Page(s, since, maxMsgs); r == Ok(Answer(false, LastId(page), Messages(page)))
    ensures !redisFault && !running ==> r == EndedAnswer(s, file, PageSize(maxMsgs), fileFault)
    ensures !running && r.Ok? ==> r.value.ended && r.value.lastId.None?
  {
    var count := if maxMsgs <= 100 && maxMsgs > 0 then maxMsgs else 100;
    if redisFault {
      return Err(RedisFailed);
    }
    if !running {
      r := TailOfEnded(s, count, file, bufferSize, fileFault);
      return;
    }
    var answer := AnswerPage(Range(s.all[s.trimmed..], since, count));
    return Ok(answer);
  }

  method AnswerPage(page: seq<Item>) returns (a: Answer)
    ensures a == Answer(false, LastId(page), Messages(page))
  {
    var messages := Extract(page);
    return Answer(false, if |page| > 0 then Some(page[|page| - 1].id) else None, messages);
  }

  method Extract(page: seq<Item>) returns (messages: seq<Text>)
    ensures messages == Messages(page)
  {
    messages := [];
    for i := 0 to |page|
      invariant messages == Messages(page[..i])
    {
      assert page[..i + 1][..i] == page[..i];
      if page[i].msg.Some? {
        messages := messages + [page[i].msg.value];
      }
    }
    assert page[..|page|] == page;
  }

  // --- A page is a stretch of the stream ---

  /** The first entry the next poll delivers: the cursor's successor, or the oldest entry left. */
  function Start(s: Stream, since: Option<nat>): nat {
    var k := Passed(s.all, since);
    if k < s.trimmed then s.trimmed else k
  }

  /** Trimming moves the cursor's successor only when it overtakes the cursor. */
  lemma PassedAfterTrim(s: Stream, since: Option<nat>)
    requires WellFormed(s)
    ensures s.trimmed + Passed(s.all[s.trimmed..], since) == Start(s, since)
  {
    var left := s.all[s.trimmed..];
    var j, k := Passed(left, since), Passed(s.all, since);
    if since.Some? {
      if k < s.trimmed < |s.all| { Ordered(s.all, k, s.trimmed); }
      assert j < |left| ==> left[j] == s.all[s.trimmed + j];
      assert 0 < j ==> left[j - 1] == s.all[s.trimmed + j - 1];
    }
  }

  /** What a poll must answer: the entries from Start on, as many as fit. */
  predicate Reply(page: seq<Item>, s: Stream, since: Option<nat>, maxMsgs: int) {
    && StretchAt(page, s.all, Start(s, since))
    && (|page| == PageSize(maxMsgs) || Start(s, since) + |page| == |s.all|)
  }

  lemma RangeShape(entries: seq<Item>, since: Option<nat>, count: nat)
    ensures var page, k := Range(entries, since, count), Passed(entries, since);
      && |page| == (if count < |entries| - k then count else |entries| - k)
      && StretchAt(page, entries, k)
  {
    var k := Passed(entries, since);
    Slice(entries, k, if k + count < |entries| then k + count else |entries|);
    assert entries[k..|entries|] == entries[k..];
  }

  lemma Slice(entries: seq<Item>, from: nat, to: nat)
    requires from <= to <= |entries|
    ensures StretchAt(entries[from..to], entries, from)
  {
  }

  lemma StretchAfterTrim(page: seq<Item>, all: seq<Item>, trimmed: nat, k: nat)
    requires trimmed <= |all| && StretchAt(page, all[trimmed..], k)
    ensures StretchAt(page, all, trimmed + k)
  {
    forall i | 0 <= i < |page|
      ensures page[i] == all[trimmed + k + i]
    {
      assert page[i] == all[trimmed..][k + i];
    }
  }

  /** A page is as long as allowed or as there are entries left, and holds them in place. */
  lemma PageShape(s: Stream, since: Option<nat>, maxMsgs: int)
    requires WellFormed(s)
    ensures var page, from, size := Page(s, since, maxMsgs), Start(s, since), PageSize(maxMsgs);
      && from <= |s.all| && |page| == (if size < |s.all| - from then size else |s.all| - from)
      && StretchAt(page, s.all, from)
  {
    PassedAfterTrim(s, since);
    var left := s.all[s.trimmed..];
    RangeShape(left, since, PageSize(maxMsgs));
    StretchAfterTrim(Page(s, since, maxMsgs), s.all, s.trimmed, Passed(left, since));
  }

  /** Two stretches from one place, as long as each other, are the same. */
  lemma SameStretch(p: seq<Item>, q: seq<Item>, all: seq<Item>, from: nat)
    requires StretchAt(p, all, from) && StretchAt(q, all, from) && |p| == |q|
    ensures p == q
  {
  }

  lemma PageIsAReply(s: Stream, since: Option<nat>, maxMsgs: int)
    requires WellFormed(s)
    ensures Reply(Page(s, since, maxMsgs), s, since, maxMsgs)
  {
    PageShape(s, since, maxMsgs);
  }

  /** The page is a reply, and the only one no longer than allowed. */
  lemma PageIsTheReply(s: Stream, since: Option<nat>, maxMsgs: int, page: seq<Item>)
    requires WellFormed(s)
    ensures Reply(page, s, since, maxMsgs) && |page| <= PageSize(maxMsgs) <==> page == Page(s, since, maxMsgs)
  {
    PageShape(s, since, maxMsgs);
    PageIsAReply(s, since, maxMsgs);
    if Reply(page, s, since, maxMsgs) && |page| <= PageSize(maxMsgs) {
      SameStretch(page, Page(s, since, maxMsgs), s.all, Start(s, since));
    }
  }

  predicate StretchAt(printed: seq<Item>, all: seq<Item>, from: nat) {
    from + |printed| <= |all| && forall i :: 0 <= i < |printed| ==> printed[i] == all[from + i]
  }

  /** Feeding back the id of the last entry delivered puts the cursor right behind it. */
  lemma CursorIsExact(all: seq<Item>, k: nat)
    requires WellFormed(Stream(all, 0)) && 0 < k <= |all|
    ensures Passed(all, Some(all[k - 1].id)) == k
  {
    var p := Passed(all, Some(all[k - 1].id));
    if k < p { Ordered(all, k - 1, p - 1); }
    if p < k - 1 { Ordered(all, p, k - 1); }
  }

  // --- Whole sessions ---

  /** Consecutive polls: the stream each one sees, the page size it asks for and the page it gets. */
  datatype Polls =
    | Last(stream: Stream, size: int, page: seq<Item>)
    | Then(stream: Stream, size: int, page: seq<Item>, rest: Polls)

  /** Between polls entries are only appended and trimmed. */
  predicate Snapshots(p: Polls) {
    WellFormed(p.stream) && (p.Then? ==> Evolves(p.stream, p.rest.stream) && Snapshots(p.rest))
  }

  /** Every page is the server's answer to the id the client fed back, and none is empty: that would make it start over. */
  predicate Followed(p: Polls, since: Option<nat>) {
    && p.page != [] && Reply(p.page, p.stream, since, p.size) && |p.page| <= PageSize(p.size)
    && (p.Then? ==> Followed(p.rest, LastId(p.page)))
  }

  /** So each page is the one `Follow` answers with. */
  lemma FollowedIsAnswered(p: Polls, since: Option<nat>)
    requires Snapshots(p) && Followed(p, since)
    ensures p.page == Page(p.stream, since, p.size)
  {
    PageIsTheReply(p.stream, since, p.size, p.page);
  }

  /** The stream as the last poll knows it. */
  function FinalAll(p: Polls): seq<Item> {
    if p.Last? then p.stream.all else FinalAll(p.rest)
  }

  /** What the client prints. */
  function Printed(p: Polls): seq<Item> {
    if p.Last? then p.page else p.page + Printed(p.rest)
  }

  /** No poll came too late: the entry after its cursor had not been trimmed. */
  predicate Punctual(p: Polls, since: Option<nat>) {
    && p.stream.trimmed <= Passed(p.stream.all, since)
    && (p.Then? ==> Punctual(p.rest, LastId(p.page)))
  }

  lemma PassedInLonger(all: seq<Item>, longer: seq<Item>, k: nat)
    requires all <= longer && WellFormed(Stream(longer, 0)) && 0 < k <= |all|
    ensures Passed(longer, Some(all[k - 1].id)) == k
  {
    assert longer[k - 1] == all[k - 1];
    CursorIsExact(longer, k);
  }

  lemma {:induction false} LastSeesEverything(p: Polls)
    requires Snapshots(p)
    ensures p.stream.all <= FinalAll(p) && WellFormed(Stream(FinalAll(p), 0))
  {
    if p.Last? {
    } else {
      LastSeesEverything(p.rest);
    }
  }

  lemma GluedStretches(a: seq<Item>, b: seq<Item>, all: seq<Item>, from: nat)
    requires StretchAt(a, all, from)
    ensures StretchAt(a + b, all, from) <==> StretchAt(b, all, from + |a|)
  {
    assert forall i :: 0 <= i < |b| ==> (a + b)[|a| + i] == b[i];
  }

  lemma StretchInLonger(page: seq<Item>, all: seq<Item>, longer: seq<Item>, from: nat)
    requires StretchAt(page, all, from) && all <= longer
    ensures StretchAt(page, longer, from)
  {
  }

  /** A late poll skips entries, and what is printed from then on shows it. */
  lemma LatePollLeavesAGap(p: Polls, since: Option<nat>)
    requires Snapshots(p) && Followed(p, since) && p.stream.trimmed > Passed(p.stream.all, since)
    ensures !StretchAt(Printed(p), FinalAll(p), Passed(p.stream.all, since))
  {
    var from, all := Passed(p.stream.all, since), FinalAll(p);
    LastSeesEverything(p);
    assert Printed(p)[0] == p.page[0] == p.stream.all[p.stream.trimmed] == all[p.stream.trimmed];
    Ordered(all, from, p.stream.trimmed);
  }

  lemma NextCursor(p: Polls, from: nat)
    requires Snapshots(p) && p.Then? && p.page != [] && StretchAt(p.page, p.stream.all, from)
    ensures Passed(p.rest.stream.all, LastId(p.page)) == from + |p.page|
  {
    assert p.page[|p.page| - 1] == p.stream.all[from + |p.page| - 1];
    PassedInLonger(p.stream.all, p.rest.stream.all, from + |p.page|);
  }

  /** A punctual poll delivers its stretch and leaves the next cursor right behind it. */
  lemma PunctualPoll(p: Polls, since: Option<nat>)
    requires Snapshots(p) && Followed(p, since) && p.stream.trimmed <= Passed(p.stream.all, since)
    ensures var from := Passed(p.stream.all, since);
      StretchAt(p.page, FinalAll(p), from) && (p.Then? ==> Passed(p.rest.stream.all, LastId(p.page)) == from + |p.page|)
  {
    var from := Passed(p.stream.all, since);
    LastSeesEverything(p);
    StretchInLonger(p.page, p.stream.all, FinalAll(p), from);
    if p.Then? {
      NextCursor(p, from);
    }
  }

  /** After a page printed in place, all is iff the rest is. */
  lemma ThenRest(p: Polls, from: nat)
    requires p.Then? && StretchAt(p.page, FinalAll(p), from)
    ensures StretchAt(Printed(p), FinalAll(p), from) <==> StretchAt(Printed(p.rest), FinalAll(p.rest), from + |p.page|)
  {
    GluedStretches(p.page, Printed(p.rest), FinalAll(p), from);
  }

  /**
   Over any run of non-empty polls, with any page sizes and any appends and trims in between,
   the client prints exactly the entries behind its cursor, in order, without gap or
   duplicate, if and only if every poll came before the next entry was trimmed.
   */
  lemma {:induction false} FollowIsContiguous(p: Polls, since: Option<nat>)
    requires Snapshots(p) && Followed(p, since)
    ensures StretchAt(Printed(p), FinalAll(p), Passed(p.stream.all, since)) <==> Punctual(p, since)
    decreases p
  {
    if p.stream.trimmed > Passed(p.stream.all, since) {
      LatePollLeavesAGap(p, since);
    } else {
      PunctualPoll(p, since);
      if p.Then? {
        ThenRest(p, Passed(p.stream.all, since));
        FollowIsContiguous(p.rest, LastId(p.page));
      }
    }
  }

  // --- What the client prints ---

  /** The messages of two lists of entries, one after the other. */
  lemma {:induction false} MessagesAppend(a: seq<Item>, b: seq<Item>)
    ensures Messages(a + b) == Messages(a) + Messages(b)
    decreases |b|
  {
    if b == [] {
      assert a + b == a;
    } else {
      assert (a + b)[..|a + b| - 1] == a + b[..|b| - 1];
      MessagesAppend(a, b[..|b| - 1]);
    }
  }

  /** An entry's message if it has one, and nothing otherwise. */
  lemma OneMessage(item: Item)
    ensures Messages([item]) == if item.msg.Some? then [item.msg.value] else []
  {
    assert [item][..0] == [];
  }

  /** The message lists of all answers, one after the other. */
  function Said(p: Polls): seq<Text> {
    if p.Last? then Messages(p.page) else Messages(p.page) + Said(p.rest)
  }

  lemma {:induction false} SaidIsPrinted(p: Polls)
    ensures Said(p) == Messages(Printed(p))
  {
    if p.Last? {
    } else {
      SaidIsPrinted(p.rest);
      MessagesAppend(p.page, Printed(p.rest));
    }
  }

  lemma StretchIsSlice(page: seq<Item>, all: seq<Item>, from: nat)
    requires StretchAt(page, all, from)
    ensures page == all[from..from + |page|]
  {
  }

  /** If every poll is punctual, the client prints, in order, the messages of the entries behind its first cursor, without gap or duplicate. */
  lemma SaidIsTheStretch(p: Polls, since: Option<nat>)
    requires Snapshots(p) && Followed(p, since) && Punctual(p, since)
    ensures StretchAt(Printed(p), FinalAll(p), Passed(p.stream.all, since)) && Said(p) == Messages(Printed(p))
  {
    FollowIsContiguous(p, since);
    SaidIsPrinted(p);
  }

  /** A stretch in place is that slice of the stream, so what is printed are the messages of the slice. */
  lemma SaidInPlace(p: Polls, from: nat)
    requires StretchAt(Printed(p), FinalAll(p), from)
    ensures Said(p) == Messages(FinalAll(p)[from..from + |Printed(p)|])
  {
    StretchIsSlice(Printed(p), FinalAll(p), from);
    SaidIsPrinted(p);
  }

  /** A page never has more than a hundred entries, nor more than a limit within that, and is empty only behind the last entry. */
  lemma PageIsCapped(s: Stream, since: Option<nat>, maxMsgs: int)
    requires WellFormed(s)
    ensures |Page(s, since, maxMsgs)| <= 100 && (0 < maxMsgs <= 100 ==> |Page(s, since, maxMsgs)| <= maxMsgs)
    ensures Page(s, since, maxMsgs) == [] <==> Start(s, since) == |s.all|
  {
    PageShape(s, since, maxMsgs);
  }

  /** An ended build is answered from Redis if a message is left there, and otherwise exactly as its log file is read. */
  lemma EndedMeans(s: Stream, file: Tail.File, count: nat, fault: Tail.IoFault)
    requires s.trimmed <= |s.all|
    ensures var recent := Messages(Newest(s.all[s.trimmed..], count));
      var tail := Tail.TailSpec(file, count, fault);
      if recent != [] then EndedAnswer(s, file, count, fault) == Ok(Answer(true, None, recent))
      else
        && (tail.Ok? ==> EndedAnswer(s, file, count, fault) == Ok(Answer(true, None, tail.value)))
        && (EndedAnswer(s, file, count, fault) == Err(LogNotFound) <==> tail == Err(Tail.FileNotFound))
        && (EndedAnswer(s, file, count, fault) == Err(LogUnreadable) <==> tail.Err? && tail != Err(Tail.FileNotFound))
  {
  }

  /** The tail of the entries left: a stretch that ends with the last of them, as long as allowed. */
  lemma NewestIsTheEnd(entries: seq<Item>, count: nat)
    ensures var newest := Newest(entries, count);
      && |newest| == (if count < |entries| then count else |entries|)
      && StretchAt(newest, entries, |entries| - |newest|)
  {
  }

  /** Three entries, read one at a time, the second poll after two of them were dropped. */
  function OneLatePoll(a: Item, b: Item, c: Item): Polls {
    Then(Stream([a, b, c], 0), 1, [a], Last(Stream([a, b, c], 2), 1, [c]))
  }

  lemma LatePollSkips(a: Item, b: Item, c: Item)
    requires a.id < b.id < c.id
    ensures var p := OneLatePoll(a, b, c);
      && Snapshots(p) && Followed(p, None) && !Punctual(p, None) && Printed(p) == [a, c]
      && !StretchAt(Printed(p), FinalAll(p), Passed(p.stream.all, None))
  {
    var p := OneLatePoll(a, b, c);
    assert [a, b, c][..2] == [a, b] && [a, b][..1] == [a];
    CursorIsExact([a, b, c], 1);
    assert LastId([a]) == Some(a.id);
    assert Followed(p.rest, Some(a.id));
    assert !Punctual(p.rest, Some(a.id));
    FollowIsContiguous(p, None);
  }
}
