/**
 Splitting a sequence at a separator, as Python's `bytes.split` and `str.split` do with one
 explicit separator, and how a split commutes with concatenation.
 */
module Lines {
  function Split<T(==)>(s: seq<T>, sep: T): (parts: seq<seq<T>>)
    ensures parts != []
  {
    if s == [] then [[]]
    else
      var rest := Split(s[1..], sep);
      if s[0] == sep then [[]] + rest else [[s[0]] + rest[0]] + rest[1..]
  }

  function Join<T>(parts: seq<seq<T>>, sep: T): seq<T>
    requires parts != []
  {
    if |parts| == 1 then parts[0] else parts[0] + [sep] + Join(parts[1..], sep)
  }

  /** The lines of a file: the pieces between line feeds, without the empty piece after the last one. */
  function LinesOf<T(==)>(s: seq<T>, sep: T): seq<seq<T>> {
    DropTrailingEmpty(Split(s, sep))
  }

  function DropTrailingEmpty<T(==)>(parts: seq<seq<T>>): seq<seq<T>> {
    if parts != [] && parts[|parts| - 1] == [] then parts[..|parts| - 1] else parts
  }

  function LastN<T>(s: seq<T>, n: nat): seq<T> {
    if |s| > n then s[|s| - n..] else s
  }

  /** Two splits glued where the strings were glued: the touching pieces become one. */
  function Glue<T>(left: seq<seq<T>>, right: seq<seq<T>>): seq<seq<T>>
    requires left != [] && right != []
  {
    left[..|left| - 1] + [left[|left| - 1] + right[0]] + right[1..]
  }

  lemma GlueAfterSeparator<T>(left: seq<seq<T>>, right: seq<seq<T>>)
    requires left != [] && right != []
    ensures Glue([[]] + left, right) == [[]] + Glue(left, right)
  {
    assert ([[]] + left)[..|left|] == [[]] + left[..|left| - 1];
  }

  lemma GlueAfterElement<T>(x: T, left: seq<seq<T>>, right: seq<seq<T>>)
    requires left != [] && right != []
    ensures Glue([[x] + left[0]] + left[1..], right) == [[x] + Glue(left, right)[0]] + Glue(left, right)[1..]
  {
    if |left| == 1 {
      assert [x] + left[0] + right[0] == [x] + (left[0] + right[0]);
    } else {
      assert ([[x] + left[0]] + left[1..])[..|left| - 1] == [[x] + left[0]] + left[1..|left| - 1];
    }
  }

  lemma {:induction false} SplitAppend<T>(a: seq<T>, b: seq<T>, sep: T)
    ensures Split(a + b, sep) == Glue(Split(a, sep), Split(b, sep))
  {
    if a == [] {
      assert a + b == b;
      var right := Split(b, sep);
      assert [] + right[0] == right[0];
      assert Glue([[]], right) == right;
    } else {
      SplitAppend(a[1..], b, sep);
      assert (a + b)[1..] == a[1..] + b;
      if a[0] == sep {
        GlueAfterSeparator(Split(a[1..], sep), Split(b, sep));
      } else {
        GlueAfterElement(a[0], Split(a[1..], sep), Split(b, sep));
      }
    }
  }

  lemma {:induction false} SplitFree<T>(s: seq<T>, sep: T)
    requires sep !in s
    ensures Split(s, sep) == [s]
  {
    if s == [] {
    } else {
      SplitFree(s[1..], sep);
      assert [s[0]] + s[1..] == s;
    }
  }

  /** Split is the one way to write `s` as separator-free pieces joined by the separator. */
  lemma {:induction false} SplitIsTheInverseOfJoin<T>(s: seq<T>, sep: T, parts: seq<seq<T>>)
    requires parts != []
    ensures (Join(parts, sep) == s && forall p :: p in parts ==> sep !in p) <==> parts == Split(s, sep)
  {
    JoinSplit(s, sep);
    PiecesAreFree(s, sep);
    if Join(parts, sep) == s && forall p :: p in parts ==> sep !in p {
      SplitJoin(parts, sep);
    }
  }

  lemma {:induction false} JoinSplit<T>(s: seq<T>, sep: T)
    ensures Join(Split(s, sep), sep) == s
  {
    if s == [] {
    } else {
      JoinSplit(s[1..], sep);
      var rest := Split(s[1..], sep);
      assert s == [s[0]] + s[1..];
      if s[0] == sep {
        assert ([[]] + rest)[1..] == rest;
      } else if |rest| > 1 {
        assert ([[s[0]] + rest[0]] + rest[1..])[1..] == rest[1..];
      }
    }
  }

  lemma {:induction false} PiecesAreFree<T>(s: seq<T>, sep: T)
    ensures forall p :: p in Split(s, sep) ==> sep !in p
  {
    if s == [] {
    } else {
      PiecesAreFree(s[1..], sep);
      var rest := Split(s[1..], sep);
      assert rest[0] in rest;
      assert forall p :: p in rest[1..] ==> p in rest;
    }
  }

  /** A piece and a separator in front are one more piece. */
  lemma SplitFirst<T>(first: seq<T>, rest: seq<T>, pieces: seq<seq<T>>, sep: T)
    requires sep !in first && Split(rest, sep) == pieces
    ensures Split(first + [sep] + rest, sep) == [first] + pieces
  {
    var tail := [sep] + rest;
    assert tail[1..] == rest;
    assert Split(tail, sep) == [[]] + pieces;
    SplitFree(first, sep);
    SplitAppend(first, tail, sep);
    assert first + [] == first;
    assert Glue([first], [[]] + pieces) == [first] + pieces;
    assert first + [sep] + rest == first + tail;
  }

  lemma {:induction false} SplitJoin<T>(parts: seq<seq<T>>, sep: T)
    requires parts != [] && forall p :: p in parts ==> sep !in p
    ensures Split(Join(parts, sep), sep) == parts
  {
    if |parts| == 1 {
      SplitFree(parts[0], sep);
    } else {
      SplitJoin(parts[1..], sep);
      SplitFirst(parts[0], Join(parts[1..], sep), parts[1..], sep);
      assert [parts[0]] + parts[1..] == parts;
    }
  }

  // --- Reading lines backwards ---

  /** Gluing more bytes in front never disturbs the pieces after the first. */
  lemma SplitSuffix<T>(a: seq<T>, b: seq<T>, sep: T)
    ensures var whole, back := Split(a + b, sep), Split(b, sep);
      |whole| >= |back| && whole[|whole| - |back| + 1..] == back[1..]
  {
    SplitAppend(a, b, sep);
  }

  /** Once more than `n` final pieces are known, the last `n` lines are. */
  lemma EnoughPieces<T>(whole: seq<seq<T>>, known: seq<seq<T>>, n: nat)
    requires n < |known| <= |whole| && whole[|whole| - |known|..] == known
    ensures LastN(DropTrailingEmpty(whole), n) == LastN(DropTrailingEmpty(known), n)
  {
    assert whole[|whole| - 1] == known[|known| - 1];
    assert forall i :: 0 <= i < |known| ==> known[i] == whole[|whole| - |known| + i];
  }

  /** Each line followed by the separator. */
  function Terminated<T>(lines: seq<seq<T>>, sep: T): seq<T> {
    if lines == [] then [] else lines[0] + [sep] + Terminated(lines[1..], sep)
  }

  lemma {:induction false} TerminatedIsJoined<T>(lines: seq<seq<T>>, sep: T)
    ensures Terminated(lines, sep) == Join(lines + [[]], sep)
  {
    if lines == [] {
      assert lines + [[]] == [[]];
    } else {
      TerminatedIsJoined(lines[1..], sep);
      assert (lines + [[]])[1..] == lines[1..] + [[]];
    }
  }

  /** Reading back lines that were each written with a separator behind them gives the lines, empty ones included. */
  lemma LinesOfTerminated<T>(lines: seq<seq<T>>, sep: T)
    requires forall l :: l in lines ==> sep !in l
    ensures LinesOf(Terminated(lines, sep), sep) == lines
  {
    TerminatedIsJoined(lines, sep);
    SplitJoin(lines + [[]], sep);
    assert (lines + [[]])[..|lines|] == lines;
  }

  /** A last line that is not empty counts without a separator behind it. */
  lemma LinesOfUnterminated<T>(lines: seq<seq<T>>, last: seq<T>, sep: T)
    requires (forall l :: l in lines ==> sep !in l) && sep !in last && last != []
    ensures LinesOf(Join(lines + [last], sep), sep) == lines + [last]
  {
    SplitJoin(lines + [last], sep);
  }

  /** The last n: a suffix, as long as n or all there is. */
  lemma LastNMeans<T>(s: seq<T>, n: nat)
    ensures var t := LastN(s, n);
      |t| == (if n < |s| then n else |s|) && t == s[|s| - |t|..]
  {
  }
}
