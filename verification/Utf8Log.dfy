/**
 sanitizeUtf8 and the Log constructor (Log.cpp). Well-formedness is defined from the other side:
 text is well-formed when it is the encoding of Unicode scalar values (section 3 of RFC 3629),
 while the code follows the byte table of section 4.
 */
module Utf8Log {
  import opened Common

  // ---- Reference: encoding scalar values ----------------------------------------------------------

  /** U+0000..U+10FFFF without the surrogates. */
  type Scalar = c: int | 0 <= c < 0xD800 || 0xE000 <= c < 0x11_0000

  function Encode(c: Scalar): (r: seq<Byte>)
    ensures 1 <= |r| <= 4
  {
    var a: Byte := 0x80 + c % 64;
    var b: Byte := 0x80 + c / 64 % 64;
    var d: Byte := 0x80 + c / 4096 % 64;
    if c < 0x80 then
      var first: Byte := c; [first]
    else if c < 0x800 then
      var first: Byte := 0xC0 + c / 64; [first, a]
    else if c < 0x1_0000 then
      var first: Byte := 0xE0 + c / 4096; [first, b, a]
    else
      var first: Byte := 0xF0 + c / 0x4_0000; [first, d, b, a]
  }

  function EncodeAll(cs: seq<Scalar>): seq<Byte> {
    if cs == [] then [] else Encode(cs[0]) + EncodeAll(cs[1..])
  }

  ghost predicate WellFormed(s: seq<Byte>) {
    exists cs: seq<Scalar> :: EncodeAll(cs) == s
  }

  // ---- The code's byte table ----------------------------------------------------------------------

  const REPLACEMENT: seq<Byte> := [0xEF, 0xBF, 0xBD]
  const REPLACEMENT_CHARACTER: Scalar := 0xFFFD

  function UnitLength(first: Byte): (n: nat)
    ensures n <= 4
  {
    if 0xC2 <= first <= 0xDF then 2
    else if 0xE0 <= first <= 0xEF then 3
    else if 0xF0 <= first <= 0xF4 then 4
    else 0
  }

  /** (b & 0xC0) == 0x80 */
  predicate IsContinuation(b: Byte) {
    b / 64 == 2
  }

  /** The length of the character the text starts with, or 0 if its first byte must be replaced. */
  function Unit(s: seq<Byte>): (n: nat)
    requires s != []
    ensures n <= |s|
  {
    var first := s[0];
    var length := UnitLength(first);
    if first < 0x80 then 1
    else if length == 0 || |s| < length || exists i | 1 <= i < length :: !IsContinuation(s[i]) then 0
    else if length == 3 && ((first == 0xE0 && s[1] < 0xA0) || (first == 0xED && s[1] >= 0xA0)) then 0
    else if length == 4 && ((first == 0xF0 && s[1] < 0x90) || (first == 0xF4 && s[1] > 0x8F)) then 0
    else length
  }

  function Sanitize(s: seq<Byte>): seq<Byte> {
    if s == [] then []
    else
      var n := Unit(s);
      if n == 0 then REPLACEMENT + Sanitize(s[1..]) else s[..n] + Sanitize(s[n..])
  }

  /** The length and validity test at p; `end` is where the terminator is. */
  method ReadUnit(message: array<Byte>, p: nat, ghost end: nat) returns (length: nat, valid: bool)
    requires p < end < message.Length && message[end] == 0
    requires forall i | p <= i < end :: message[i] != 0
    requires message[p] >= 0x80
    ensures Unit(message[p..end]) == if valid then length else 0
    ensures valid ==> 0 < length && p + length <= end
  {
    ghost var rest := message[p..end];
    var first := message[p];
    assert rest[0] == first;
    length := UnitLength(first);
    valid := length != 0;
    var index := 1;
    while valid && index < length
      invariant 1 <= index && (length != 0 ==> index <= length)
      invariant valid ==> length != 0 && p + index <= end && forall i | 1 <= i < index :: IsContinuation(rest[i])
      invariant !valid ==> length == 0 || |rest| < length || exists i | 1 <= i < length :: !IsContinuation(rest[i])
    {
      assert p + index <= end; // never past the terminator
      assert p + index < end ==> rest[index] == message[p + index];
      if message[p + index] == 0 || !IsContinuation(message[p + index]) {
        valid := false;
      }
      index := index + 1;
    }
    assert valid ==> rest[1] == message[p + 1];
    if valid && length == 3 {
      valid := !(first == 0xE0 && message[p + 1] < 0xA0) && !(first == 0xED && message[p + 1] >= 0xA0);
    }
    if valid && length == 4 {
      valid := !(first == 0xF0 && message[p + 1] < 0x90) && !(first == 0xF4 && message[p + 1] > 0x8F);
    }
  }

  lemma SanitizeAt(text: seq<Byte>, p: nat)
    requires p < |text|
    ensures Sanitize(text[p..]) ==
      var n := Unit(text[p..]);
      if n == 0 then REPLACEMENT + Sanitize(text[p + 1..]) else text[p..p + n] + Sanitize(text[p + n..])
  {
    var rest, n := text[p..], Unit(text[p..]);
    assert rest[1..] == text[p + 1..] && rest[..n] == text[p..p + n] && rest[n..] == text[p + n..];
  }

  /** One character further, or one replaced byte. */
  lemma SanitizeStep(result: seq<Byte>, text: seq<Byte>, p: nat)
    requires p < |text| && result + Sanitize(text[p..]) == Sanitize(text)
    ensures var n := Unit(text[p..]);
            if n == 0 then result + REPLACEMENT + Sanitize(text[p + 1..]) == Sanitize(text)
            else result + text[p..p + n] + Sanitize(text[p + n..]) == Sanitize(text)
  {
    hide Sanitize, Unit;
    SanitizeAt(text, p);
    var n := Unit(text[p..]);
    if n == 0 {
      ConcatAssociates(result, REPLACEMENT, Sanitize(text[p + 1..]));
    } else {
      ConcatAssociates(result, text[p..p + n], Sanitize(text[p + n..]));
    }
  }

  lemma UnitOfAscii(s: seq<Byte>)
    requires s != [] && s[0] < 0x80
    ensures Unit(s) == 1
  {
  }

  /** The message holds the text and a terminator behind it. */
  ghost predicate Holds(message: array<Byte>, text: seq<Byte>)
    reads message
  {
    && |text| < message.Length && message[|text|] == 0
    && forall i | 0 <= i < |text| :: message[i] == text[i] != 0
  }

  /** The loop body: what is appended for the byte at p, and how far p moves. */
  method SanitizeUnit(message: array<Byte>, p: nat, ghost text: seq<Byte>) returns (unit: seq<Byte>, length: nat)
    requires p < |text| && Holds(message, text)
    ensures var n := Unit(text[p..]);
            if n == 0 then unit == REPLACEMENT && length == 1
            else length == n && p + n <= |text| && unit == text[p..p + n]
  {
    ghost var end := |text|;
    assert text[p..] == message[p..end];
    hide Unit;
    var first := message[p];
    assert message[p..end][0] == first;
    if first < 0x80 {
      UnitOfAscii(message[p..end]);
      return [first], 1;
    }
    var valid;
    length, valid := ReadUnit(message, p, end);
    if valid {
      assert message[p..p + length] == text[p..p + length];
      return message[p..p + length], length;
    }
    return REPLACEMENT, 1;
  }

  lemma TextOf(message: array<Byte>) returns (text: seq<Byte>)
    requires 0 in message[..]
    ensures text == message[..StrLen(message[..])] && Holds(message, text)
  {
    var end := StrLen(message[..]);
    text := message[..end];
    assert forall i | 0 <= i <= end :: message[..][i] == message[i];
  }

  method SanitizeUtf8(message: array?<Byte>) returns (result: seq<Byte>)
    requires message != null ==> 0 in message[..]
    ensures message == null ==> result == []
    ensures message != null ==> result == Sanitize(message[..StrLen(message[..])])
  {
    result := [];
    if message == null {
      return;
    }
    ghost var text := TextOf(message);
    assert Sanitize([]) == [] && text[0..] == text;
    hide Sanitize, Unit;
    var p := 0;
    while message[p] != 0
      invariant 0 <= p <= |text| && Holds(message, text)
      invariant result + Sanitize(text[p..]) == Sanitize(text)
      decreases |text| - p
    {
      SanitizeStep(result, text, p);
      var unit, length := SanitizeUnit(message, p, text);
      result := result + unit;
      p := p + length;
    }
    assert text[p..] == [];
  }

  // ---- The table is the encoding --------------------------------------------------------------------

  /** Every encoded scalar value passes the table, whatever follows it. */
  lemma UnitAcceptsEncoding(c: Scalar, rest: seq<Byte>)
    ensures Unit(Encode(c) + rest) == |Encode(c)|
  {
    var e := Encode(c);
    var s := e + rest;
    assert forall i | 0 <= i < |e| :: s[i] == e[i];
    ContinuationRange(c % 64);
    ContinuationRange(c / 64 % 64);
    ContinuationRange(c / 4096 % 64);
    hide IsContinuation;
  }

  lemma ContinuationRange(x: int)
    requires 0 <= x < 64
    ensures IsContinuation(0x80 + x)
  {
  }

  lemma Decode2(a: Byte, b: Byte) returns (c: Scalar)
    requires 0xC2 <= a <= 0xDF && IsContinuation(b)
    ensures Encode(c) == [a, b]
  {
    var x, y: int := a - 0xC0, b - 0x80;
    c := x * 64 + y;
    assert c / 64 == x && c % 64 == y;
  }

  lemma Decode3(a: Byte, b: Byte, d: Byte) returns (c: Scalar)
    requires 0xE0 <= a <= 0xEF && IsContinuation(b) && IsContinuation(d)
    requires !(a == 0xE0 && b < 0xA0) && !(a == 0xED && b >= 0xA0)
    ensures Encode(c) == [a, b, d]
  {
    var x, y, z: int := a - 0xE0, b - 0x80, d - 0x80;
    var high := x * 64 + y;
    c := high * 64 + z;
    assert c / 64 == high && c % 64 == z && high % 64 == y && c / 4096 == x;
  }

  lemma Decode4(a: Byte, b: Byte, d: Byte, e: Byte) returns (c: Scalar)
    requires 0xF0 <= a <= 0xF4 && IsContinuation(b) && IsContinuation(d) && IsContinuation(e)
    requires !(a == 0xF0 && b < 0x90) && !(a == 0xF4 && b > 0x8F)
    ensures Encode(c) == [a, b, d, e]
  {
    var x, y, z, w: int := a - 0xF0, b - 0x80, d - 0x80, e - 0x80;
    var high := x * 64 + y;
    var mid := high * 64 + z;
    c := mid * 64 + w;
    assert c / 64 == mid && c % 64 == w && mid % 64 == z;
    assert c / 4096 == high && high % 64 == y && c / 0x4_0000 == x;
  }

  /** What the table accepts is the encoding of a scalar value. */
  lemma UnitIsEncoding(s: seq<Byte>) returns (c: Scalar)
    requires s != [] && Unit(s) != 0
    ensures Encode(c) == s[..Unit(s)]
  {
    var n := Unit(s);
    assert forall i | 1 <= i < n :: IsContinuation(s[i]);
    if n == 1 {
      c := s[0];
    } else if n == 2 {
      c := Decode2(s[0], s[1]);
    } else if n == 3 {
      c := Decode3(s[0], s[1], s[2]);
    } else {
      c := Decode4(s[0], s[1], s[2], s[3]);
    }
  }

  /** A character of its own, or U+FFFD for each byte that starts none. */
  ghost predicate Repairs(s: seq<Byte>, cs: seq<Scalar>) {
    if s == [] then cs == []
    else
      cs != [] &&
      if Unit(s) == 0 then cs[0] == REPLACEMENT_CHARACTER && Repairs(s[1..], cs[1..])
      else Encode(cs[0]) == s[..Unit(s)] && Repairs(s[Unit(s)..], cs[1..])
  }

  // ---- Main results ---------------------------------------------------------------------------------

  /** The output is well-formed for every input: it encodes the input's characters, the bad bytes replaced. */
  lemma {:induction false} SanitizeRepairs(s: seq<Byte>) returns (cs: seq<Scalar>)
    ensures Repairs(s, cs) && Sanitize(s) == EncodeAll(cs) && WellFormed(Sanitize(s))
    decreases |s|
  {
    if s == [] {
      cs := [];
      assert EncodeAll([]) == [];
    } else if Unit(s) == 0 {
      var more := SanitizeRepairs(s[1..]);
      cs := [REPLACEMENT_CHARACTER] + more;
      assert Encode(REPLACEMENT_CHARACTER) == REPLACEMENT;
    } else {
      var c := UnitIsEncoding(s);
      var more := SanitizeRepairs(s[Unit(s)..]);
      cs := [c] + more;
    }
  }

  lemma {:induction false} SanitizeKeepsEncoding(cs: seq<Scalar>)
    ensures Sanitize(EncodeAll(cs)) == EncodeAll(cs) && Repairs(EncodeAll(cs), cs)
  {
    if cs != [] {
      var e, rest := Encode(cs[0]), EncodeAll(cs[1..]);
      UnitAcceptsEncoding(cs[0], rest);
      SanitizeKeepsEncoding(cs[1..]);
      assert (e + rest)[..|e|] == e && (e + rest)[|e|..] == rest;
    }
  }

  /** Well-formed text is left alone, and only well-formed text is. */
  lemma IdentityIffWellFormed(s: seq<Byte>)
    ensures Sanitize(s) == s <==> WellFormed(s)
  {
    if WellFormed(s) {
      var cs: seq<Scalar> :| EncodeAll(cs) == s;
      SanitizeKeepsEncoding(cs);
    }
    var _ := SanitizeRepairs(s);
  }

  lemma SanitizeIsIdempotent(s: seq<Byte>)
    ensures Sanitize(Sanitize(s)) == Sanitize(s)
  {
    var cs := SanitizeRepairs(s);
    SanitizeKeepsEncoding(cs);
  }

  // ---- Log --------------------------------------------------------------------------------------------

  const NEWLINE: Byte := 10

  function Terminated(s: seq<Byte>): seq<Byte> {
    if s != [] && s[|s| - 1] != NEWLINE then s + [NEWLINE] else s
  }

  class Log {
    const sessionId: int
    const level: int
    var message: seq<Byte>

    constructor (sessionId: int, level: int, message: array?<Byte>)
      requires message != null ==> 0 in message[..]
      ensures this.sessionId == sessionId && this.level == level
      ensures this.message == if message == null then [] else Terminated(Sanitize(message[..StrLen(message[..])]))
    {
      this.sessionId := sessionId;
      this.level := level;
      var clean := SanitizeUtf8(message);
      this.message := clean;
      if clean != [] && clean[|clean| - 1] != NEWLINE {
        this.message := clean + [NEWLINE];
      }
    }
  }

  lemma {:induction false} EncodeAppend(cs: seq<Scalar>, c: Scalar)
    ensures EncodeAll(cs + [c]) == EncodeAll(cs) + Encode(c)
  {
    if cs == [] {
      assert cs + [c] == [c] && EncodeAll([]) == [];
    } else {
      assert (cs + [c])[1..] == cs[1..] + [c];
      EncodeAppend(cs[1..], c);
    }
  }

  lemma NewlineIsAscii()
    ensures Encode(10) == [NEWLINE]
  {
  }

  /** A Log built from another Log's message has the same message, and that message is well-formed. */
  lemma RebuildingALogKeepsItsMessage(s: seq<Byte>)
    ensures Terminated(Sanitize(Terminated(Sanitize(s)))) == Terminated(Sanitize(s))
    ensures WellFormed(Terminated(Sanitize(s)))
  {
    hide Sanitize, EncodeAll, Encode, Repairs;
    var cs := SanitizeRepairs(s);
    EncodeAppend(cs, 10);
    SanitizeKeepsEncoding(cs);
    SanitizeKeepsEncoding(cs + [10]);
    NewlineIsAscii();
  }
}
