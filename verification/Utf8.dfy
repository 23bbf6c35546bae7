/**
 UTF-8 as section 3 of RFC 3629 defines it, over unbounded integers: an encoder for one
 scalar value, a strict decoder for a byte string, and the two facts the log readers lean
 on. A line feed byte never occurs inside a multi-octet sequence, and a position of a valid
 byte string is a character boundary exactly when the octet there is not a continuation
 octet.
 */
module Utf8 {
  import opened Wrappers

  newtype Byte = x: int | 0 <= x < 256
  newtype Scalar = x: int | 0 <= x < 0x110000 && !(0xD800 <= x < 0xE000)
  type Text = seq<Scalar>

  predicate IsContinuation(b: Byte) {
    0x80 <= b < 0xC0
  }

  /** Length of the sequence a lead octet announces; 0 for an octet that cannot lead one. */
  function SequenceLength(lead: Byte): nat {
    if lead < 0x80 then 1
    else if 0xC2 <= lead < 0xE0 then 2
    else if 0xE0 <= lead < 0xF0 then 3
    else if 0xF0 <= lead < 0xF5 then 4
    else 0
  }

  /** Marker bits of the lead octet of an `n`-octet sequence. */
  function LeadMark(n: nat): Byte {
    if n <= 1 then 0 else if n == 2 then 0xC0 else if n == 3 then 0xE0 else 0xF0
  }

  function EncodedLength(c: nat): nat {
    if c < 0x80 then 1 else if c < 0x800 then 2 else if c < 0x10000 then 3 else 4
  }

  /** What is left of `c` above its lowest `k` groups of six bits. */
  function High(c: nat, k: nat): nat {
    if k == 0 then c else High(c / 64, k - 1)
  }

  /** The lowest `k` groups of six bits of `c`, as continuation octets. */
  function Low(c: nat, k: nat): (tail: seq<Byte>)
    ensures |tail| == k
    ensures forall i :: 0 <= i < k ==> IsContinuation(tail[i])
  {
    if k == 0 then [] else Low(c / 64, k - 1) + [(0x80 + c % 64) as Byte]
  }

  /** Puts the six payload bits of each continuation octet below `bits`. */
  function Shift(bits: nat, tail: seq<Byte>): nat
    requires forall i :: 0 <= i < |tail| ==> IsContinuation(tail[i])
    decreases |tail|
  {
    if tail == [] then bits
    else assert IsContinuation(tail[|tail| - 1]); Shift(bits, tail[..|tail| - 1]) * 64 + (tail[|tail| - 1] as int - 0x80)
  }

  function EncodeScalar(c: Scalar): (bytes: seq<Byte>)
    ensures bytes != [] && SequenceLength(bytes[0]) == |bytes|
    ensures forall i :: 1 <= i < |bytes| ==> IsContinuation(bytes[i])
  {
    var n := EncodedLength(c as int);
    HighBound(c as int, n - 1);
    [(LeadMark(n) as int + High(c as int, n - 1)) as Byte] + Low(c as int, n - 1)
  }

  function Encode(text: Text): seq<Byte> {
    if text == [] then [] else EncodeScalar(text[0]) + Encode(text[1..])
  }

  /** The scalar value at the front of `s`, or None when no well-formed sequence starts there. */
  function DecodeFirst(s: seq<Byte>): Option<Scalar>
    requires s != []
  {
    var n := SequenceLength(s[0]);
    if n == 0 || |s| < n || exists i :: 1 <= i < n && !IsContinuation(s[i]) then None
    else
      var c := Shift(s[0] as int - LeadMark(n) as int, s[1..n]);
      // overlong forms, surrogates and values past the last plane are not scalar values' encodings
      if c < 0x110000 && !(0xD800 <= c < 0xE000) && EncodedLength(c) == n then Some(c as Scalar) else None
  }

  /** The strict decoder: the whole string must be a run of well-formed sequences. */
  function Decode(s: seq<Byte>): Option<Text>
    decreases |s|
  {
    if s == [] then Some([])
    else match DecodeFirst(s)
      case None => None
      case Some(c) =>
        match Decode(s[SequenceLength(s[0])..])
        case None => None
        case Some(rest) => Some([c] + rest)
  }

  // --- Decoder and encoder are inverse ---

  lemma HighBound(c: nat, k: nat)
    requires k <= 3
    ensures k == 0 ==> High(c, k) == c
    ensures k == 1 ==> High(c, k) == c / 64
    ensures k == 2 ==> High(c, k) == c / 64 / 64
    ensures k == 3 ==> High(c, k) == c / 64 / 64 / 64
  {
    if k > 0 { HighBound(c / 64, k - 1); }
  }

  lemma {:induction false} ShiftHighLow(c: nat, k: nat)
    ensures Shift(High(c, k), Low(c, k)) == c
  {
    if k == 0 {
    } else {
      ShiftHighLow(c / 64, k - 1);
      var low := Low(c / 64, k - 1);
      assert Low(c, k)[..k - 1] == low;
    }
  }

  lemma {:induction false} HighLowShift(bits: nat, tail: seq<Byte>)
    requires forall i :: 0 <= i < |tail| ==> IsContinuation(tail[i])
    ensures High(Shift(bits, tail), |tail|) == bits
    ensures Low(Shift(bits, tail), |tail|) == tail
    decreases |tail|
  {
    if tail == [] {
    } else {
      var front, last := tail[..|tail| - 1], tail[|tail| - 1];
      HighLowShift(bits, front);
      assert tail == front + [last];
    }
  }

  lemma DecodeFirstOfEncoded(c: Scalar, rest: seq<Byte>)
    ensures DecodeFirst(EncodeScalar(c) + rest) == Some(c)
  {
    var n := EncodedLength(c as int);
    var e := EncodeScalar(c);
    var s := e + rest;
    assert forall i :: 1 <= i < n ==> s[i] == e[i];
    assert s[1..n] == Low(c as int, n - 1);
    ShiftHighLow(c as int, n - 1);
  }

  lemma EncodedFromParts(c: Scalar, lead: Byte, tail: seq<Byte>)
    requires |tail| <= 3 && EncodedLength(c as int) == |tail| + 1
    requires High(c as int, |tail|) == lead as int - LeadMark(|tail| + 1) as int && Low(c as int, |tail|) == tail
    ensures EncodeScalar(c) == [lead] + tail
  {
  }

  /** What the decoder found when it accepts a sequence. */
  lemma AcceptedParts(s: seq<Byte>)
    requires s != [] && DecodeFirst(s).Some?
    ensures var n := SequenceLength(s[0]);
      && 1 <= n <= |s| && n <= 4 && (forall i :: 0 <= i < n - 1 ==> IsContinuation(s[1..n][i]))
      && s[0] as int >= LeadMark(n) as int && EncodedLength(DecodeFirst(s).value as int) == n
      && DecodeFirst(s).value as int == Shift(s[0] as int - LeadMark(n) as int, s[1..n])
  {
    var n := SequenceLength(s[0]);
    assert forall i :: 1 <= i < n ==> IsContinuation(s[i]);
  }

  lemma FrontIsLeadAndTail(s: seq<Byte>, n: nat)
    requires 1 <= n <= |s|
    ensures s[..n] == [s[0]] + s[1..n]
  {
  }

  lemma EncodedFromShift(c: Scalar, lead: Byte, tail: seq<Byte>)
    requires |tail| <= 3 && (forall i :: 0 <= i < |tail| ==> IsContinuation(tail[i])) && lead as int >= LeadMark(|tail| + 1) as int
    requires EncodedLength(c as int) == |tail| + 1 && c as int == Shift(lead as int - LeadMark(|tail| + 1) as int, tail)
    ensures EncodeScalar(c) == [lead] + tail
  {
    HighLowShift(lead as int - LeadMark(|tail| + 1) as int, tail);
    EncodedFromParts(c, lead, tail);
  }

  lemma EncodedOfAccepted(s: seq<Byte>, c: Scalar, n: nat)
    requires s != [] && n == SequenceLength(s[0]) && 1 <= n <= |s| && n <= 4 && s[0] as int >= LeadMark(n) as int
    requires forall i :: 0 <= i < n - 1 ==> IsContinuation(s[1..n][i])
    requires EncodedLength(c as int) == n && c as int == Shift(s[0] as int - LeadMark(n) as int, s[1..n])
    ensures EncodeScalar(c) == s[..n]
  {
    EncodedFromShift(c, s[0], s[1..n]);
    FrontIsLeadAndTail(s, n);
  }

  lemma EncodedOfDecodeFirst(s: seq<Byte>)
    requires s != [] && DecodeFirst(s).Some?
    ensures EncodeScalar(DecodeFirst(s).value) == s[..SequenceLength(s[0])]
  {
    AcceptedParts(s);
    EncodedOfAccepted(s, DecodeFirst(s).value, SequenceLength(s[0]));
  }

  lemma {:induction false} DecodeEncode(text: Text)
    ensures Decode(Encode(text)) == Some(text)
  {
    if text == [] {
    } else {
      var e, rest := EncodeScalar(text[0]), Encode(text[1..]);
      var s := e + rest;
      DecodeFirstOfEncoded(text[0], rest);
      assert s[0] == e[0] && s[|e|..] == rest;
      DecodeEncode(text[1..]);
      assert text == [text[0]] + text[1..];
    }
  }

  lemma EncodeCons(c: Scalar, rest: Text, s: seq<Byte>, n: nat)
    requires n <= |s| && EncodeScalar(c) == s[..n] && Encode(rest) == s[n..]
    ensures Encode([c] + rest) == s
  {
    assert ([c] + rest)[1..] == rest;
    assert s == s[..n] + s[n..];
  }

  lemma {:induction false} EncodeDecode(s: seq<Byte>)
    requires Decode(s).Some?
    ensures Encode(Decode(s).value) == s
    decreases |s|
  {
    if s == [] {
    } else {
      var n := SequenceLength(s[0]);
      EncodeDecode(s[n..]);
      EncodedOfDecodeFirst(s);
      EncodeCons(DecodeFirst(s).value, Decode(s[n..]).value, s, n);
    }
  }

  // --- Decoding across a cut ---

  /** Only the announced octets decide what DecodeFirst finds. */
  lemma DecodeFirstLocal(s: seq<Byte>, t: seq<Byte>)
    requires s != [] && t != [] && s[0] == t[0]
    requires var n := SequenceLength(s[0]); n <= |s| && n <= |t| && s[..n] == t[..n]
    ensures DecodeFirst(s) == DecodeFirst(t)
  {
    var n := SequenceLength(s[0]);
    assert forall i :: 0 <= i < n ==> s[i] == s[..n][i] && t[i] == t[..n][i];
    assert n > 0 ==> s[1..n] == s[..n][1..] == t[..n][1..] == t[1..n];
  }

  lemma {:induction false} EncodeAppend(x: Text, y: Text)
    ensures Encode(x + y) == Encode(x) + Encode(y)
  {
    if x == [] {
      assert x + y == y;
    } else {
      EncodeAppend(x[1..], y);
      var first, rest := EncodeScalar(x[0]), Encode(x[1..]);
      assert (x + y)[0] == x[0] && (x + y)[1..] == x[1..] + y;
      calc {
        Encode(x + y);
        first + (rest + Encode(y));
        { ConcatAssociates(first, rest, Encode(y)); }
        first + rest + Encode(y);
      }
    }
  }

  lemma ConcatAssociates(a: seq<Byte>, b: seq<Byte>, c: seq<Byte>)
    ensures a + b + c == a + (b + c)
  {
  }

  /** The code is prefix-free: a text whose encoding starts another's starts that text. */
  lemma {:induction false} EncodePrefix(x: Text, b: seq<Byte>, z: Text)
    requires Encode(x) + b == Encode(z)
    ensures x <= z && Encode(z[|x|..]) == b
  {
    if x == [] {
      assert Encode(x) + b == b;
    } else {
      var first, rest := EncodeScalar(x[0]), Encode(x[1..]);
      assert Encode(x) + b == first + (rest + b);
      DecodeFirstOfEncoded(x[0], rest + b);
      assert z != [];
      var first', rest' := EncodeScalar(z[0]), Encode(z[1..]);
      DecodeFirstOfEncoded(z[0], rest');
      assert (first + (rest + b))[|first|..] == rest + b && (first' + rest')[|first|..] == rest';
      EncodePrefix(x[1..], b, z[1..]);
    }
  }

  /** Appending to a decodable string appends to its text, and fails exactly when the tail fails. */
  lemma DecodeAppend(a: seq<Byte>, b: seq<Byte>)
    requires Decode(a).Some?
    ensures Decode(a + b).Some? <==> Decode(b).Some?
    ensures Decode(b).Some? ==> Decode(a + b).value == Decode(a).value + Decode(b).value
  {
    EncodeDecode(a);
    var x := Decode(a).value;
    if Decode(b).Some? {
      EncodeDecode(b);
      EncodeAppend(x, Decode(b).value);
      DecodeEncode(x + Decode(b).value);
    }
    if Decode(a + b).Some? {
      EncodeDecode(a + b);
      var z := Decode(a + b).value;
      EncodePrefix(x, b, z);
      DecodeEncode(z[|x|..]);
    }
  }

  predicate IsBoundary(s: seq<Byte>, k: nat)
    requires k <= |s|
  {
    k == |s| || !IsContinuation(s[k])
  }

  lemma LeadIsNotContinuation(s: seq<Byte>)
    requires s != [] && DecodeFirst(s).Some?
    ensures !IsContinuation(s[0])
  {
  }

  /** Cutting a valid string leaves a valid front exactly at a character boundary. */
  lemma {:induction false} FrontDecodesAtBoundary(s: seq<Byte>, k: nat)
    requires Decode(s).Some? && k <= |s|
    ensures Decode(s[..k]).Some? <==> IsBoundary(s, k)
    decreases |s|
  {
    if k == 0 {
      if s != [] { LeadIsNotContinuation(s); }
    } else {
      var n := SequenceLength(s[0]);
      if k < n {
        assert IsContinuation(s[k]);
        assert DecodeFirst(s[..k]).None?;
      } else {
        assert s[..k][..n] == s[..n];
        DecodeFirstLocal(s, s[..k]);
        assert s[..k][n..] == s[n..][..k - n];
        FrontDecodesAtBoundary(s[n..], k - n);
      }
    }
  }

  /** A one-octet character, and the two- and three-octet ones of the first example of section 7 of RFC 3629. */
  lemma KnownEncodings()
    ensures EncodeScalar(0x41) == [0x41] && EncodeScalar(0x391) == [0xCE, 0x91] && EncodeScalar(0x2262) == [0xE2, 0x89, 0xA2]
  {
    KnownTwoOctets();
    KnownThreeOctets();
  }

  lemma KnownTwoOctets()
    ensures EncodeScalar(0x391) == [0xCE, 0x91]
  {
    assert 0x391 / 64 == 0xE && 0x391 % 64 == 0x11;
    assert Low(0xE, 0) == [];
    EncodedFromParts(0x391, 0xCE, [0x91]);
  }

  lemma KnownThreeOctets()
    ensures EncodeScalar(0x2262) == [0xE2, 0x89, 0xA2]
  {
    assert 0x2262 / 64 == 0x89 && 0x2262 % 64 == 0x22 && 0x89 / 64 == 2 && 0x89 % 64 == 9;
    assert Low(2, 0) == [] && Low(0x89, 1) == [] + [0x89] && Low(0x2262, 2) == Low(0x89, 1) + [0xA2];
    assert High(2, 0) == 2 && High(0x89, 1) == 2 && High(0x2262, 2) == 2;
    EncodedFromParts(0x2262, 0xE2, [0x89, 0xA2]);
  }

  lemma KnownFourOctets()
    ensures EncodeScalar(0x233B4) == [0xF0, 0xA3, 0x8E, 0xB4]
  {
    assert 0x233B4 / 64 == 0x8CE && 0x233B4 % 64 == 0x34 && 0x8CE / 64 == 0x23 && 0x8CE % 64 == 0xE && 0x23 / 64 == 0;
    assert Low(0, 0) == [] && Low(0x23, 1) == [] + [0xA3] && Low(0x8CE, 2) == Low(0x23, 1) + [0x8E];
    assert Low(0x233B4, 3) == Low(0x8CE, 2) + [0xB4];
    assert High(0, 0) == 0 && High(0x23, 1) == 0 && High(0x8CE, 2) == 0 && High(0x233B4, 3) == 0;
    EncodedFromParts(0x233B4, 0xF0, [0xA3, 0x8E, 0xB4]);
  }
}
