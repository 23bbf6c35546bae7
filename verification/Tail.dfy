/**
 The tail reader of `cbsd/cbslib/core/utils.py`: the last lines of a file, read backwards in
 chunks. It is proved equal to "split the whole file, keep the last n lines" for every
 content, line count and buffer size, and, on UTF-8 content, to the same question asked of
 the decoded text.
 */
module Tail {
  import opened Wrappers
  import opened Utf8
  import opened Lines

  const LF: Byte := 0x0A
  const LINE_FEED: Scalar := 0x0A

  datatype File = Missing | NotRegular | Regular(content: seq<Byte>)

  /** What opening or reading the file raises, if anything. */
  datatype IoFault = NoFault | Permission | OtherIo

  datatype TailError = InvalidLineCount | FileNotFound | NotAFile | PermissionDenied | ReadFailed | UndecodableLine

  /** Decodes every line; one bad line fails the call. */
  function DecodeLines(lines: seq<seq<Byte>>): Option<seq<Text>> {
    if lines == [] then Some([])
    else match (Decode(lines[0]), DecodeLines(lines[1..]))
      case (Some(t), Some(ts)) => Some([t] + ts)
      case _ => None
  }

  /** What `tail_file` answers, without chunks: argument checks first, no look at the file for n == 0, an empty file is not opened. */
  function TailSpec(file: File, n: int, fault: IoFault): Result<seq<Text>, TailError> {
    if n < 0 then Err(InvalidLineCount)
    else if n == 0 then Ok([])
    else match file
      case Missing => Err(FileNotFound)
      case NotRegular => Err(NotAFile)
      case Regular(content) =>
        if content == [] then Ok([])
        else if fault.Permission? then Err(PermissionDenied)
        else if fault.OtherIo? then Err(ReadFailed)
        else match DecodeLines(LastN(LinesOf(content, LF), n))
          case None => Err(UndecodableLine)
          case Some(lines) => Ok(lines)
  }

  /** Which call fails how; a call for no lines never fails and an empty file is never opened. */
  lemma TailErrors(file: File, n: int, fault: IoFault)
    ensures TailSpec(file, n, fault) == Err(InvalidLineCount) <==> n < 0
    ensures TailSpec(file, n, fault) == Err(FileNotFound) <==> n > 0 && file.Missing?
    ensures TailSpec(file, n, fault) == Err(NotAFile) <==> n > 0 && file.NotRegular?
    ensures TailSpec(file, n, fault) == Err(PermissionDenied)
      <==> n > 0 && file.Regular? && file.content != [] && fault.Permission?
    ensures TailSpec(file, n, fault) == Err(ReadFailed) <==> n > 0 && file.Regular? && file.content != [] && fault.OtherIo?
    ensures n == 0 || (n > 0 && file == Regular([])) ==> TailSpec(file, n, fault) == Ok([])
  {
  }

  /** The backward loop over file position, carry buffer and collected pieces. */
  method LastLines(content: seq<Byte>, n: nat, bufferSize: nat) returns (lines: seq<seq<Byte>>)
    requires n > 0 && bufferSize > 0
    ensures lines == LastN(LinesOf(content, LF), n)
  {
    if content == [] {
      return [];
    }
    var position := |content|;
    var buffer: seq<Byte> := [];
    lines := [];
    while position > 0 && |lines| <= n
      invariant 0 <= position <= |content|
      invariant Held(content, position, buffer, lines)
    {
      var chunkSize := if bufferSize < position then bufferSize else position;
      ghost var from := position;
      position := position - chunkSize;
      var chunk := content[position..position + chunkSize];
      var parts := Split(chunk + buffer, LF);
      HeldStep(content, from, position, buffer, lines, parts);
      if position == 0 {
        lines := parts + lines;
        buffer := [];
      } else {
        buffer := parts[0];
        lines := parts[1..] + lines;
      }
    }
    HeldIsEnough(content, position, buffer, lines, n);
    lines := KeepLast(lines, n);
  }

  /** A last empty piece is dropped, then all but the last n lines. */
  method KeepLast(found: seq<seq<Byte>>, n: nat) returns (lines: seq<seq<Byte>>)
    ensures lines == LastN(DropTrailingEmpty(found), n)
  {
    lines := found;
    if lines != [] && lines[|lines| - 1] == [] {
      lines := lines[..|lines| - 1];
    }
    if |lines| > n {
      lines := lines[|lines| - n..];
    }
  }

  /** The loop's invariant: buffer and pieces are the split of the part of the file already read. */
  ghost predicate Held(content: seq<Byte>, position: nat, buffer: seq<Byte>, lines: seq<seq<Byte>>)
    requires position <= |content|
  {
    if position > 0 then Split(content[position..], LF) == [buffer] + lines else Split(content, LF) == lines
  }

  /** One more chunk in front of the buffer keeps the invariant. */
  lemma HeldStep(content: seq<Byte>, position: nat, next: nat, buffer: seq<Byte>, lines: seq<seq<Byte>>, parts: seq<seq<Byte>>)
    requires next < position <= |content| && Held(content, position, buffer, lines)
    requires parts == Split(content[next..position] + buffer, LF)
    ensures parts != []
    ensures if next == 0 then Held(content, 0, [], parts + lines) else Held(content, next, parts[0], parts[1..] + lines)
  {
    SplitFromNext(content, position, next, buffer, lines);
    FirstAndRest(parts, lines);
    assert content[0..] == content;
  }

  lemma SplitFromNext(content: seq<Byte>, position: nat, next: nat, buffer: seq<Byte>, lines: seq<seq<Byte>>)
    requires next < position <= |content| && Split(content[position..], LF) == [buffer] + lines
    ensures Split(content[next..], LF) == Split(content[next..position] + buffer, LF) + lines
  {
    ChunkJoinsTheSplit(content[next..position], buffer, lines, content[position..]);
    assert content[next..position] + content[position..] == content[next..];
  }

  lemma FirstAndRest<T>(parts: seq<T>, lines: seq<T>)
    requires parts != []
    ensures parts + lines == [parts[0]] + (parts[1..] + lines)
  {
  }

  /** Stopping at the start of the file or with more than `n` pieces is always enough. */
  lemma HeldIsEnough(content: seq<Byte>, position: nat, buffer: seq<Byte>, lines: seq<seq<Byte>>, n: nat)
    requires position <= |content| && Held(content, position, buffer, lines)
    requires position == 0 || |lines| > n
    ensures LastN(DropTrailingEmpty(lines), n) == LastN(LinesOf(content, LF), n)
  {
    if position > 0 {
      SplitSuffix(content[..position], content[position..], LF);
      assert content == content[..position] + content[position..];
      assert ([buffer] + lines)[1..] == lines;
      EnoughPieces(Split(content, LF), lines, n);
    }
  }

  /** Splitting chunk plus carry buffer extends the split of what was already read. */
  lemma ChunkJoinsTheSplit(chunk: seq<Byte>, buffer: seq<Byte>, lines: seq<seq<Byte>>, seen: seq<Byte>)
    requires Split(seen, LF) == [buffer] + lines
    ensures Split(chunk + seen, LF) == Split(chunk + buffer, LF) + lines
  {
    PiecesAreFree(seen, LF);
    assert buffer in [buffer] + lines;
    SplitFree(buffer, LF);
    SplitAppend(chunk, buffer, LF);
    SplitAppend(chunk, seen, LF);
    GlueTail(Split(chunk, LF), buffer, lines);
  }

  lemma GlueTail(left: seq<seq<Byte>>, buffer: seq<Byte>, lines: seq<seq<Byte>>)
    requires left != []
    ensures Glue(left, [buffer] + lines) == Glue(left, [buffer]) + lines
  {
    assert ([buffer] + lines)[1..] == lines;
  }

  method TailFile(file: File, n: int, bufferSize: nat, fault: IoFault) returns (r: Result<seq<Text>, TailError>)
    requires bufferSize > 0
    ensures r == TailSpec(file, n, fault)
  {
    if n < 0 {
      return Err(InvalidLineCount);
    }
    if n == 0 {
      return Ok([]);
    }
    match file
    case Missing => return Err(FileNotFound);
    case NotRegular => return Err(NotAFile);
    case Regular(content) =>
      if content == [] {
        return Ok([]);
      }
      if fault == Permission {
        return Err(PermissionDenied);
      }
      if fault == OtherIo {
        return Err(ReadFailed);
      }
      var bytes := LastLines(content, n, bufferSize);
      var texts := DecodeAll(bytes);
      return if texts.Some? then Ok(texts.value) else Err(UndecodableLine);
  }

  method DecodeAll(lines: seq<seq<Byte>>) returns (r: Option<seq<Text>>)
    ensures r == DecodeLines(lines)
  {
    var texts: seq<Text> := [];
    for i := 0 to |lines|
      invariant DecodeLines(lines[..i]) == Some(texts)
    {
      DecodeLinesSnoc(lines[..i], lines[i]);
      DecodeLinesAppend(lines[..i + 1], lines[i + 1..]);
      assert lines[..i + 1] == lines[..i] + [lines[i]] && lines == lines[..i + 1] + lines[i + 1..];
      match Decode(lines[i])
      case None => return None;
      case Some(t) => texts := texts + [t];
    }
    assert lines[..|lines|] == lines;
    return Some(texts);
  }

  lemma DecodeLinesSnoc(front: seq<seq<Byte>>, last: seq<Byte>)
    ensures DecodeLines(front + [last]) ==
      match (DecodeLines(front), Decode(last))
      case (Some(x), Some(t)) => Some(x + [t])
      case _ => None
  {
    DecodeLinesAppend(front, [last]);
    DecodeOneLine(last);
  }

  lemma DecodeOneLine(line: seq<Byte>)
    ensures DecodeLines([line]) == if Decode(line).Some? then Some([Decode(line).value]) else None
  {
    assert [line][1..] == [];
    if Decode(line).Some? { assert [Decode(line).value] + [] == [Decode(line).value]; }
  }

  lemma {:induction false} DecodeLinesAppend(a: seq<seq<Byte>>, b: seq<seq<Byte>>)
    ensures DecodeLines(a + b) ==
      match (DecodeLines(a), DecodeLines(b))
      case (Some(x), Some(y)) => Some(x + y)
      case _ => None
  {
    if a == [] {
      assert a + b == b;
      if DecodeLines(b).Some? { assert [] + DecodeLines(b).value == DecodeLines(b).value; }
    } else {
      assert (a + b)[1..] == a[1..] + b;
      DecodeLinesAppend(a[1..], b);
      if DecodeLines(a).Some? && DecodeLines(b).Some? {
        var t, x, y := Decode(a[0]).value, DecodeLines(a[1..]).value, DecodeLines(b).value;
        assert [t] + (x + y) == ([t] + x) + y;
      }
    }
  }

  // --- Byte lines against text lines ---

  /** An LF-free prefix stays in the first piece. */
  lemma SplitAfterFreePrefix(a: seq<Byte>, b: seq<Byte>)
    requires LF !in a
    ensures Split(a + b, LF) == [a + Split(b, LF)[0]] + Split(b, LF)[1..]
  {
    SplitFree(a, LF);
    SplitAppend(a, b, LF);
  }

  /** No octet of a well-formed sequence other than the single octet LF is LF. */
  lemma NoLineFeedInside(s: seq<Byte>)
    requires s != [] && s[0] != LF && DecodeFirst(s).Some?
    ensures LF !in s[..SequenceLength(s[0])]
    ensures DecodeFirst(s).value != LINE_FEED
  {
    var n := SequenceLength(s[0]);
    assert forall i :: 1 <= i < n ==> IsContinuation(s[i]);
    EncodedOfDecodeFirst(s);
  }

  /** Where no sequence starts, none starts on the line cut out of the string either. */
  lemma BadStartStaysBad(s: seq<Byte>)
    requires s != [] && DecodeFirst(s).None?
    ensures Decode(Split(s, LF)[0]).None?
  {
    var line := Split(s, LF)[0];
    var n := SequenceLength(s[0]);
    FirstPieceIsAPrefix(s);
    assert s[0] != LF;
    assert line != [] && line[0] == s[0];
    if n <= |line| {
      assert line[..n] == s[..n];
      DecodeFirstLocal(s, line);
    }
  }

  lemma {:induction false} FirstPieceIsAPrefix(s: seq<Byte>)
    ensures Split(s, LF)[0] <= s
    ensures s != [] && s[0] != LF ==> Split(s, LF)[0] != []
  {
    if s == [] {
    } else {
      FirstPieceIsAPrefix(s[1..]);
    }
  }

  /**
   Decoding line by line succeeds exactly when decoding the whole does, and then the decoded
   lines are the lines of the decoded text, wherever the bytes were cut.
   */
  lemma {:induction false} DecodeCommutesWithSplit(s: seq<Byte>)
    ensures DecodeLines(Split(s, LF)) ==
      if Decode(s).Some? then Some(Split(Decode(s).value, LINE_FEED)) else None
    decreases |s|
  {
    if s == [] {
      var parts: seq<seq<Byte>> := [[]];
      assert parts[1..] == [];
      assert DecodeLines(parts).value == [[]];
    } else if DecodeFirst(s).None? {
      BadStartStaysBad(s);
    } else if s[0] == LF {
      DecodeCommutesWithSplit(s[1..]);
      assert DecodeFirst(s) == Some(LINE_FEED);
      assert ([[]] + Split(s[1..], LF))[1..] == Split(s[1..], LF);
      if Decode(s).Some? {
        assert Decode(s).value[1..] == Decode(s[1..]).value;
      }
    } else {
      DecodeCommutesWithSplitAfterCharacter(s);
    }
  }

  lemma DecodeLinesCons(line: seq<Byte>, rest: seq<seq<Byte>>)
    ensures DecodeLines([line] + rest) ==
      match (Decode(line), DecodeLines(rest))
      case (Some(t), Some(ts)) => Some([t] + ts)
      case _ => None
  {
    assert ([line] + rest)[1..] == rest;
  }

  /** A character in front of a string goes in front of its text. */
  lemma DecodeCons(s: seq<Byte>, rest: seq<Byte>)
    requires s != [] && DecodeFirst(s).Some?
    ensures var n, c := SequenceLength(s[0]), DecodeFirst(s).value;
      n <= |s| && Decode(s[..n] + rest) == if Decode(rest).Some? then Some([c] + Decode(rest).value) else None
  {
    var n := SequenceLength(s[0]);
    var t := s[..n] + rest;
    assert t[..n] == s[..n] && t[n..] == rest;
    DecodeFirstLocal(s, t);
  }

  /** A character other than a line feed in front of a text goes in front of its first line. */
  lemma SplitTextCons(c: Scalar, text: Text)
    requires c != LINE_FEED
    ensures Split([c] + text, LINE_FEED) == [[c] + Split(text, LINE_FEED)[0]] + Split(text, LINE_FEED)[1..]
  {
    assert ([c] + text)[1..] == text;
  }

  /** A character in front of the first line: the decoded lines are those of the text with the character in front. */
  lemma LinesAfterCharacter(s: seq<Byte>, parts: seq<seq<Byte>>, text: Option<Text>)
    requires s != [] && DecodeFirst(s).Some? && DecodeFirst(s).value != LINE_FEED && parts != []
    requires DecodeLines(parts) == if text.Some? then Some(Split(text.value, LINE_FEED)) else None
    ensures SequenceLength(s[0]) <= |s|
    ensures DecodeLines([s[..SequenceLength(s[0])] + parts[0]] + parts[1..]) ==
      if text.Some? then Some(Split([DecodeFirst(s).value] + text.value, LINE_FEED)) else None
  {
    DecodeCons(s, parts[0]);
    DecodeLinesCons(s[..SequenceLength(s[0])] + parts[0], parts[1..]);
    DecodeLinesCons(parts[0], parts[1..]);
    assert [parts[0]] + parts[1..] == parts;
    if text.Some? {
      SplitTextCons(DecodeFirst(s).value, text.value);
    }
  }

  lemma DecodeCommutesWithSplitAfterCharacter(s: seq<Byte>)
    requires s != [] && s[0] != LF && DecodeFirst(s).Some?
    ensures DecodeLines(Split(s, LF)) ==
      if Decode(s).Some? then Some(Split(Decode(s).value, LINE_FEED)) else None
    decreases |s|, 0
  {
    var n := SequenceLength(s[0]);
    var first, rest := s[..n], s[n..];
    NoLineFeedInside(s);
    assert s == first + rest;
    SplitAfterFreePrefix(first, rest);
    DecodeCommutesWithSplit(rest);
    LinesAfterCharacter(s, Split(rest, LF), Decode(rest));
    DecodeCons(s, rest);
  }

  lemma DropSnoc<T>(front: seq<seq<T>>, last: seq<T>)
    ensures DropTrailingEmpty(front + [last]) == if last == [] then front else front + [last]
  {
    assert (front + [last])[..|front|] == front;
  }

  /** Dropping the empty last piece commutes with decoding too. */
  lemma DecodeDropsTheSameLine(front: seq<seq<Byte>>, last: seq<Byte>)
    requires DecodeLines(front + [last]).Some?
    ensures DecodeLines(DropTrailingEmpty(front + [last])) == Some(DropTrailingEmpty(DecodeLines(front + [last]).value))
  {
    DecodeLinesSnoc(front, last);
    OnlyEmptyDecodesToEmpty(last);
    DropSnoc(front, last);
    DropSnoc(DecodeLines(front).value, Decode(last).value);
  }

  lemma OnlyEmptyDecodesToEmpty(line: seq<Byte>)
    requires Decode(line).Some?
    ensures Decode(line).value == [] <==> line == []
  {
    EncodeDecode(line);
  }

  lemma {:induction false} DecodeLinesLength(parts: seq<seq<Byte>>)
    requires DecodeLines(parts).Some?
    ensures |DecodeLines(parts).value| == |parts|
  {
    if parts == [] {
    } else {
      DecodeLinesLength(parts[1..]);
    }
  }

  lemma DecodeLinesKeepsLastN(parts: seq<seq<Byte>>, n: nat)
    requires DecodeLines(parts).Some?
    ensures DecodeLines(LastN(parts, n)) == Some(LastN(DecodeLines(parts).value, n))
  {
    DecodeLinesLength(parts);
    if |parts| > n {
      var k := |parts| - n;
      assert parts == parts[..k] + parts[k..];
      DecodeLinesAppend(parts[..k], parts[k..]);
      DecodeLinesLength(parts[..k]);
    }
  }

  lemma FrontAndLast<T>(parts: seq<T>)
    requires parts != []
    ensures parts == parts[..|parts| - 1] + [parts[|parts| - 1]]
  {
  }

  lemma TailOfParts(front: seq<seq<Byte>>, last: seq<Byte>, parts: seq<seq<Byte>>, n: nat)
    requires parts == front + [last] && DecodeLines(parts).Some?
    ensures DecodeLines(LastN(DropTrailingEmpty(parts), n)) == Some(LastN(DropTrailingEmpty(DecodeLines(parts).value), n))
  {
    DecodeDropsTheSameLine(front, last);
    DecodeLinesKeepsLastN(DropTrailingEmpty(parts), n);
  }

  lemma TailOfDecoded(content: seq<Byte>, text: Text, n: nat)
    requires Decode(content) == Some(text)
    ensures DecodeLines(LastN(LinesOf(content, LF), n)) == Some(LastN(LinesOf(text, LINE_FEED), n))
  {
    DecodeCommutesWithSplit(content);
    var parts := Split(content, LF);
    FrontAndLast(parts);
    TailOfParts(parts[..|parts| - 1], parts[|parts| - 1], parts, n);
  }

  /** On valid UTF-8, the tail of the bytes is the tail of the text. */
  lemma TailOfText(text: Text, n: nat)
    requires n > 0
    ensures TailSpec(Regular(Encode(text)), n, NoFault) == Ok(LastN(LinesOf(text, LINE_FEED), n))
  {
    DecodeEncode(text);
    TailOfDecoded(Encode(text), text, n);
  }
}

/**
 The log download of `cbsd/cbslib/builds/logs.py`: the file is read in fixed-size chunks and
 each chunk is decoded on its own.
 */
module LogFile {
  import opened Wrappers
  import opened Utf8

  /** What was yielded, and whether the generator ended without raising. */
  datatype Download = Download(chunks: seq<Text>, complete: bool)

  function Concat(chunks: seq<Text>): Text {
    if chunks == [] then [] else Concat(chunks[..|chunks| - 1]) + chunks[|chunks| - 1]
  }

  /** A chunk boundary of `s` that falls inside a multi-octet sequence. */
  predicate CutInside(s: seq<Byte>, chunkSize: nat, k: nat) {
    k * chunkSize < |s| && IsContinuation(s[k * chunkSize])
  }

  /** The generator gets to read number k: one read per chunk, and a last one that finds the end. */
  predicate Reaches(s: seq<Byte>, chunkSize: nat, k: nat) {
    k == 0 || (k - 1) * chunkSize < |s|
  }

  ghost predicate Deliverable(content: seq<Byte>, chunkSize: nat, faultAt: Option<nat>) {
    && Decode(content).Some? && (forall k: nat :: !CutInside(content, chunkSize, k))
    && (faultAt.Some? ==> !Reaches(content, chunkSize, faultAt.value))
  }

  /**
   With `faultAt` the number of the read that raises (0 also stands for opening the file): the
   download delivers the whole text if and only if the file is valid UTF-8, no chunk boundary
   falls inside a sequence and no read that is reached raises; what it delivers before failing
   is always a prefix.
   */
  method GetLog(content: seq<Byte>, chunkSize: nat, faultAt: Option<nat>) returns (d: Download)
    requires chunkSize > 0
    ensures d.complete <==> Deliverable(content, chunkSize, faultAt)
    ensures d.complete ==> Concat(d.chunks) == Decode(content).value
    ensures Decode(content).Some? ==> Concat(d.chunks) <= Decode(content).value
  {
    d := Download([], true);
    var position, count := 0, 0;
    DeliveredAtStart(content, chunkSize);
    while position < |content|
      invariant 0 <= position <= |content| && d.complete
      invariant position == Least(count * chunkSize, |content|)
      invariant Reaches(content, chunkSize, count) && (faultAt.Some? ==> faultAt.value >= count)
      invariant Delivered(content, chunkSize, position, count, Concat(d.chunks))
      decreases |content| - position
    {
      if faultAt == Some(count) {
        return Download(d.chunks, false);
      }
      var next := if position + chunkSize < |content| then position + chunkSize else |content|;
      var chunk := content[position..next];
      NextRead(content, chunkSize, position, next, count);
      DeliveredStep(content, chunkSize, position, next, count, Concat(d.chunks));
      match Decode(chunk)
      case None =>
        return Download(d.chunks, false);
      case Some(text) =>
        assert (d.chunks + [text])[..|d.chunks|] == d.chunks;
        d := Download(d.chunks + [text], true);
        position := next;
        count := count + 1;
    }
    if faultAt == Some(count) {
      return Download(d.chunks, false);
    }
    assert content[..position] == content;
    AllDelivered(content, chunkSize, count, faultAt);
  }

  lemma NextRead(content: seq<Byte>, chunkSize: nat, position: nat, next: nat, count: nat)
    requires position == Least(count * chunkSize, |content|) < |content|
    requires next == Least(position + chunkSize, |content|)
    ensures next == Least((count + 1) * chunkSize, |content|) && Reaches(content, chunkSize, count + 1)
  {
    Times(count, chunkSize);
  }

  lemma AllDelivered(content: seq<Byte>, chunkSize: nat, count: nat, faultAt: Option<nat>)
    requires Decode(content).Some? && UncutUpTo(content, chunkSize, count) && |content| <= count * chunkSize
    requires faultAt.Some? ==> faultAt.value > count
    ensures Deliverable(content, chunkSize, faultAt)
  {
    AllUncut(content, chunkSize, count);
    if faultAt.Some? {
      NotReached(content, chunkSize, count, faultAt.value);
    }
  }

  lemma NotReached(content: seq<Byte>, chunkSize: nat, count: nat, k: nat)
    requires |content| <= count * chunkSize && k > count
    ensures !Reaches(content, chunkSize, k)
  {
    TimesMonotone(count, k - 1, chunkSize);
  }

  lemma AllUncut(s: seq<Byte>, chunkSize: nat, count: nat)
    requires |s| <= count * chunkSize && (Decode(s).Some? ==> UncutUpTo(s, chunkSize, count))
    ensures Decode(s).Some? ==> forall k: nat :: !CutInside(s, chunkSize, k)
  {
    forall k: nat | k > count
      ensures !CutInside(s, chunkSize, k)
    {
      TimesMonotone(count, k, chunkSize);
    }
  }

  /** For every chunk size there is a text that cannot be downloaded: a two-octet character across the first boundary. */
  lemma SomeTextIsCut(chunkSize: nat)
    requires chunkSize > 0
    ensures var content := Encode(seq(chunkSize - 1, _ => 0x61) + [0xE9]);
      Decode(content).Some? && CutInside(content, chunkSize, 1)
  {
    var letters: Text := seq(chunkSize - 1, _ => 0x61);
    DecodeEncode(letters + [0xE9]);
    EncodeAppend(letters, [0xE9]);
    LettersEncode(letters);
    TwoOctets();
    assert 1 * chunkSize == chunkSize;
  }

  lemma {:induction false} LettersEncode(letters: Text)
    requires forall i :: 0 <= i < |letters| ==> letters[i] == 0x61
    ensures |Encode(letters)| == |letters|
  {
    if letters == [] {
    } else {
      LettersEncode(letters[1..]);
      assert |EncodeScalar(0x61)| == 1;
    }
  }

  lemma TwoOctets()
    ensures |Encode([0xE9])| == 2 && IsContinuation(Encode([0xE9])[1])
  {
    var text: Text := [0xE9];
    assert text[1..] == [];
    assert |EncodeScalar(0xE9)| == 2;
    assert Encode(text) == EncodeScalar(0xE9) + Encode(text[1..]);
  }

  /** After `count` reads: what was delivered is the text of the part read, and no read ended inside a sequence. */
  ghost predicate Delivered(content: seq<Byte>, chunkSize: nat, position: nat, count: nat, text: Text)
    requires position <= |content|
  {
    && Decode(content[..position]) == Some(text)
    && (Decode(content).Some? ==> text <= Decode(content).value && UncutUpTo(content, chunkSize, count))
  }

  lemma DeliveredAtStart(content: seq<Byte>, chunkSize: nat)
    ensures Delivered(content, chunkSize, 0, 0, [])
  {
    if Decode(content).Some? { FrontDecodesAtBoundary(content, 0); }
  }

  lemma DeliveredStep(content: seq<Byte>, chunkSize: nat, position: nat, next: nat, count: nat, text: Text)
    requires position < next <= |content|
    requires next == Least((count + 1) * chunkSize, |content|)
    requires Delivered(content, chunkSize, position, count, text)
    ensures var chunk := Decode(content[position..next]);
      if chunk.Some? then Delivered(content, chunkSize, next, count + 1, text + chunk.value)
      else Decode(content).Some? ==> CutInside(content, chunkSize, count + 1)
  {
    var chunk := content[position..next];
    assert content[..next] == content[..position] + chunk;
    DecodeAppend(content[..position], chunk);
    if Decode(content).Some? {
      FrontDecodesAtBoundary(content, next);
      ReadEndsAt(content, chunkSize, count, next);
      FrontIsAPrefix(content, next);
    }
  }

  lemma FrontIsAPrefix(content: seq<Byte>, next: nat)
    requires next <= |content| && Decode(content).Some?
    ensures Decode(content[..next]).Some? ==> Decode(content[..next]).value <= Decode(content).value
  {
    if Decode(content[..next]).Some? {
      DecodeAppend(content[..next], content[next..]);
      assert content == content[..next] + content[next..];
    }
  }

  lemma ReadEndsAt(s: seq<Byte>, chunkSize: nat, count: nat, next: nat)
    requires next == Least((count + 1) * chunkSize, |s|)
    ensures UncutUpTo(s, chunkSize, count) && IsBoundary(s, next) ==> UncutUpTo(s, chunkSize, count + 1)
    ensures !IsBoundary(s, next) ==> CutInside(s, chunkSize, count + 1)
  {
  }

  ghost predicate UncutUpTo(s: seq<Byte>, chunkSize: nat, count: nat) {
    forall k: nat :: k <= count ==> !CutInside(s, chunkSize, k)
  }

  function Least(a: nat, b: nat): nat { if a < b then a else b }

  lemma Times(k: nat, c: nat)
    ensures (k + 1) * c == k * c + c
  {
  }

  lemma TimesMonotone(j: nat, k: nat, c: nat)
    requires j <= k
    ensures j * c <= k * c
  {
    assert k * c == j * c + (k - j) * c;
  }
}
