/** Go byte strings and the cleaning that every text column goes through
    before it is stored. */
module Utf8 {

  type byte = b: int | 0 <= b < 256

  /** A Go string: bytes, with no promise that they are text. */
  type Str = seq<byte>

  // ---------------------------------------------------------------- encoding

  /** A Unicode scalar value: a code point that is not a surrogate. */
  type Scalar = c: int | 0 <= c < 0xD800 || 0xE000 <= c <= 0x10FFFF

  /** The encoding of one scalar value, section 3 of RFC 3629. */
  function Encode(c: Scalar): Str {
    if c < 0x80 then [c]
    else if c < 0x800 then [0xC0 + c / 64, 0x80 + c % 64]
    else if c < 0x10000 then [0xE0 + c / 64 / 64, 0x80 + c / 64 % 64, 0x80 + c % 64]
    else [0xF0 + c / 64 / 64 / 64, 0x80 + c / 64 / 64 % 64, 0x80 + c / 64 % 64, 0x80 + c % 64]
  }

  /** The ends of each row of the table of RFC 3629, section 3. */
  lemma EncodingTable()
    ensures Encode(0) == [0x00] && Encode(0x7F) == [0x7F]
    ensures Encode(0x80) == [0xC2, 0x80] && Encode(0x7FF) == [0xDF, 0xBF]
    ensures Encode(0x800) == [0xE0, 0xA0, 0x80] && Encode(0xFFFF) == [0xEF, 0xBF, 0xBF]
    ensures Encode(0xD7FF) == [0xED, 0x9F, 0xBF] && Encode(0xE000) == [0xEE, 0x80, 0x80]
    ensures Encode(0x10000) == [0xF0, 0x90, 0x80, 0x80] && Encode(0x10FFFF) == [0xF4, 0x8F, 0xBF, 0xBF]
  {
  }

  function EncodeAll(cs: seq<Scalar>): Str {
    if cs == [] then [] else Encode(cs[0]) + EncodeAll(cs[1..])
  }

  /** Well-formed UTF-8, by what it is: the encoding of some scalar values. */
  ghost predicate WellFormed(s: Str) {
    exists cs :: EncodeAll(cs) == s
  }

  // ---------------------------------------------------------------- decoding

  predicate Tail(b: byte) { 0x80 <= b <= 0xBF }

  /** The width of the rune at the front of s, and 0 where Go's decoder reports
      an invalid byte: the byte table of section 4 of RFC 3629. */
  function RuneWidth(s: Str): (w: nat)
    ensures w <= |s|
  {
    if |s| == 0 then 0
    else if s[0] < 0x80 then 1
    else if 0xC2 <= s[0] <= 0xDF && |s| >= 2 && Tail(s[1]) then 2
    else if |s| >= 3 && Tail(s[1]) && Tail(s[2]) &&
            ((s[0] == 0xE0 && s[1] >= 0xA0) || (0xE1 <= s[0] <= 0xEF && s[0] != 0xED) || (s[0] == 0xED && s[1] <= 0x9F)) then 3
    else if |s| >= 4 && Tail(s[1]) && Tail(s[2]) && Tail(s[3]) &&
            ((s[0] == 0xF0 && s[1] >= 0x90) || 0xF1 <= s[0] <= 0xF3 || (s[0] == 0xF4 && s[1] <= 0x8F)) then 4
    else 0
  }

  predicate ValidString(s: Str) {
    s == [] || (RuneWidth(s) > 0 && ValidString(s[RuneWidth(s)..]))
  }

  /** strings.ToValidUTF8 with an empty replacement. */
  function ToValid(s: Str): Str {
    if s == [] then []
    else if RuneWidth(s) > 0 then s[..RuneWidth(s)] + ToValid(s[RuneWidth(s)..])
    else ToValid(s[1..])
  }

  function RemoveNul(s: Str): Str {
    if s == [] then [] else (if s[0] == 0 then [] else [s[0]]) + RemoveNul(s[1..])
  }

  function Sanitize(s: Str): Str {
    var t := RemoveNul(s);
    if !ValidString(t) then ToValid(t) else t
  }

  // ---------------------------------------------- the decoder meets the encoder

  lemma WidthOfEncoding(c: Scalar, rest: Str)
    ensures RuneWidth(Encode(c) + rest) == |Encode(c)|
  {
    var s := Encode(c) + rest;
    assert forall i | 0 <= i < |Encode(c)| :: s[i] == Encode(c)[i];
  }

  /** The six payload bits of a continuation byte put after the bits so far. */
  function Shift(high: int, b: byte): int {
    high * 64 + (b as int - 0x80)
  }

  lemma Unshift(high: int, b: byte)
    requires Tail(b)
    ensures Shift(high, b) / 64 == high && 0x80 + Shift(high, b) % 64 == b as int
  {
  }

  function Decode(s: Str): Scalar
    requires RuneWidth(s) > 0
  {
    match RuneWidth(s)
    case 1 => s[0] as int
    case 2 => Shift(s[0] as int - 0xC0, s[1])
    case 3 => Shift(Shift(s[0] as int - 0xE0, s[1]), s[2])
    case _ => Shift(Shift(Shift(s[0] as int - 0xF0, s[1]), s[2]), s[3])
  }

  lemma EncodeDecode(s: Str)
    requires RuneWidth(s) > 0
    ensures Encode(Decode(s)) == s[..RuneWidth(s)]
  {
    match RuneWidth(s)
    case 1 =>
    case 2 =>
      Unshift(s[0] as int - 0xC0, s[1]);
    case 3 =>
      Unshift(s[0] as int - 0xE0, s[1]);
      Unshift(Shift(s[0] as int - 0xE0, s[1]), s[2]);
    case _ =>
      Unshift(s[0] as int - 0xF0, s[1]);
      Unshift(Shift(s[0] as int - 0xF0, s[1]), s[2]);
      Unshift(Shift(Shift(s[0] as int - 0xF0, s[1]), s[2]), s[3]);
  }

  /** Go's byte-table test accepts exactly the well-formed strings. */
  lemma ValidIsWellFormed(s: Str)
    ensures ValidString(s) <==> WellFormed(s)
  {
    if ValidString(s) {
      var cs := Scalars(s);
      assert EncodeAll(cs) == s;
    }
    if WellFormed(s) {
      var cs :| EncodeAll(cs) == s;
      EncodingIsValid(cs);
    }
  }

  lemma {:induction false} Scalars(s: Str) returns (cs: seq<Scalar>)
    requires ValidString(s)
    ensures EncodeAll(cs) == s
  {
    if s == [] {
      cs := [];
    } else {
      var w := RuneWidth(s);
      var tail := Scalars(s[w..]);
      EncodeDecode(s);
      cs := [Decode(s)] + tail;
      assert cs[0] == Decode(s) && cs[1..] == tail;
      assert s == s[..w] + s[w..];
    }
  }

  lemma {:induction false} EncodingIsValid(cs: seq<Scalar>)
    ensures ValidString(EncodeAll(cs))
  {
    if cs != [] {
      var rest := EncodeAll(cs[1..]);
      WidthOfEncoding(cs[0], rest);
      EncodingIsValid(cs[1..]);
      assert EncodeAll(cs)[|Encode(cs[0])|..] == rest;
    }
  }

  // ------------------------------------------------------------------ cleaning

  /** a is b with some bytes left out, order kept. */
  ghost predicate Subsequence(a: Str, b: Str) {
    if a == [] then true
    else if b == [] then false
    else (a[0] == b[0] && Subsequence(a[1..], b[1..])) || Subsequence(a, b[1..])
  }

  lemma {:induction false} SubsequenceRefl(a: Str)
    ensures Subsequence(a, a)
  {
    if a != [] { SubsequenceRefl(a[1..]); }
  }

  lemma {:induction false} SubsequencePrefix(p: Str, a: Str, b: Str)
    requires Subsequence(a, b)
    ensures Subsequence(p + a, p + b)
  {
    if p == [] {
      assert p + a == a && p + b == b;
    } else {
      SubsequencePrefix(p[1..], a, b);
      assert (p + a)[1..] == p[1..] + a && (p + b)[1..] == p[1..] + b;
    }
  }

  lemma {:induction false} SubsequenceDrop(a: Str, b: Str)
    requires a != [] && Subsequence(a, b)
    ensures b != [] && Subsequence(a[1..], b[1..])
  {
    if !(a[0] == b[0] && Subsequence(a[1..], b[1..])) {
      SubsequenceDrop(a, b[1..]);
      SubsequenceWeaken(a[1..], b[1..]);
    }
  }

  lemma {:induction false} SubsequenceWeaken(a: Str, b: Str)
    requires b != [] && Subsequence(a, b[1..])
    ensures Subsequence(a, b)
  {
  }

  lemma {:induction false} SubsequenceTrans(a: Str, b: Str, c: Str)
    requires Subsequence(a, b) && Subsequence(b, c)
    ensures Subsequence(a, c)
    decreases |a| + |b| + |c|
  {
    if a != [] {
      if b[0] == c[0] && Subsequence(b[1..], c[1..]) {
        if a[0] == b[0] && Subsequence(a[1..], b[1..]) {
          SubsequenceTrans(a[1..], b[1..], c[1..]);
        } else {
          SubsequenceTrans(a, b[1..], c[1..]);
          SubsequenceWeaken(a, c);
        }
      } else {
        SubsequenceTrans(a, b, c[1..]);
        SubsequenceWeaken(a, c);
      }
    }
  }

  lemma {:induction false} RemoveNulFacts(s: Str)
    ensures 0 !in RemoveNul(s) && Subsequence(RemoveNul(s), s)
    ensures 0 !in s ==> RemoveNul(s) == s
  {
    if s != [] {
      RemoveNulFacts(s[1..]);
      SubsequencePrefix([s[0]], RemoveNul(s[1..]), s[1..]);
      assert [s[0]] + s[1..] == s;
      if s[0] == 0 {
        assert RemoveNul(s) == RemoveNul(s[1..]);
        SubsequenceWeaken(RemoveNul(s), s);
      }
    }
  }

  lemma {:induction false} ToValidFacts(s: Str)
    ensures ValidString(ToValid(s)) && Subsequence(ToValid(s), s)
    ensures forall b | b in ToValid(s) :: b in s
    ensures ValidString(s) ==> ToValid(s) == s
  {
    if s != [] {
      var w := RuneWidth(s);
      if w > 0 {
        ToValidFacts(s[w..]);
        KeepRune(s, ToValid(s[w..]));
        SubsequencePrefix(s[..w], ToValid(s[w..]), s[w..]);
        assert s[..w] + s[w..] == s;
      } else {
        ToValidFacts(s[1..]);
      }
    }
  }

  /** A rune is read the same whatever follows it. */
  lemma KeepRune(s: Str, rest: Str)
    requires RuneWidth(s) > 0
    ensures RuneWidth(s[..RuneWidth(s)] + rest) == RuneWidth(s)
    ensures ValidString(rest) ==> ValidString(s[..RuneWidth(s)] + rest)
  {
    var w := RuneWidth(s);
    var t := s[..w] + rest;
    assert forall i | 0 <= i < w :: t[i] == s[i];
    assert t[w..] == rest;
  }

  lemma Assoc(a: Str, b: Str, c: Str)
    ensures (a + b) + c == a + (b + c)
  {
  }

  lemma SplitAt(a: Str, b: Str)
    ensures (a + b)[..|a|] == a && (a + b)[|a|..] == b
  {
  }

  lemma ToValidRune(a: Str, rest: Str)
    requires RuneWidth(a) > 0
    ensures ToValid(a[..RuneWidth(a)] + rest) == a[..RuneWidth(a)] + ToValid(rest)
  {
    KeepRune(a, rest);
    SplitAt(a[..RuneWidth(a)], rest);
  }

  lemma {:induction false} ValidAppend(a: Str, b: Str)
    requires ValidString(a)
    ensures ToValid(a + b) == a + ToValid(b)
  {
    if a == [] {
      assert a + b == b;
    } else {
      var w := RuneWidth(a);
      var head, tail := a[..w], a[w..];
      assert head + tail == a;
      ValidAppend(tail, b);
      Assoc(head, tail, b);
      ToValidRune(a, tail + b);
      Assoc(head, tail, ToValid(b));
    }
  }

  lemma {:induction false} RemoveNulAppend(a: Str, b: Str)
    ensures RemoveNul(a + b) == RemoveNul(a) + RemoveNul(b)
  {
    if a == [] {
      assert a + b == b;
    } else {
      var head := if a[0] == 0 then [] else [a[0]];
      RemoveNulAppend(a[1..], b);
      assert (a + b)[0] == a[0] && (a + b)[1..] == a[1..] + b;
      Assoc(head, RemoveNul(a[1..]), RemoveNul(b));
    }
  }

  lemma SanitizeIsToValid(s: Str)
    ensures Sanitize(s) == ToValid(RemoveNul(s))
  {
    ToValidFacts(RemoveNul(s));
  }

  /** What reaches a text column: text without a zero byte, taken from the
      input in order; cleaning again changes nothing, and a clean input is
      left alone, and only such an input. */
  lemma SanitizeIsClean(s: Str)
    ensures 0 !in Sanitize(s) && WellFormed(Sanitize(s)) && Subsequence(Sanitize(s), s)
    ensures Sanitize(Sanitize(s)) == Sanitize(s)
    ensures Sanitize(s) == s <==> 0 !in s && WellFormed(s)
  {
    SanitizeIsToValid(s);
    RemoveNulFacts(s);
    ToValidFacts(RemoveNul(s));
    ValidIsWellFormed(Sanitize(s));
    ValidIsWellFormed(s);
    SubsequenceTrans(Sanitize(s), RemoveNul(s), s);
    RemoveNulFacts(Sanitize(s));
  }

  /** Cleaning never eats good text: a well-formed prefix survives, but for its
      zero bytes, and what follows is cleaned as it would be alone. */
  lemma SanitizeKeepsText(a: Str, b: Str)
    requires WellFormed(a) && 0 !in a
    ensures Sanitize(a + b) == a + Sanitize(b)
  {
    SanitizeIsToValid(a + b);
    SanitizeIsToValid(b);
    RemoveNulAppend(a, b);
    RemoveNulFacts(a);
    ValidIsWellFormed(a);
    ValidAppend(a, RemoveNul(b));
  }

  /** A byte that can start no rune, or is not followed as it must be, goes,
      and nothing after it is touched. */
  lemma SanitizeDropsBadByte(a: Str, b: Str)
    requires WellFormed(a) && 0 !in a && b != []
    requires b[0] == 0 || RuneWidth(RemoveNul(b)) == 0
    ensures Sanitize(a + b) == a + Sanitize(b[1..])
  {
    SanitizeKeepsText(a, b);
    SanitizeIsToValid(b);
    SanitizeIsToValid(b[1..]);
    if b[0] != 0 {
      var t := RemoveNul(b);
      assert t == [b[0]] + RemoveNul(b[1..]);
      assert t[1..] == RemoveNul(b[1..]);
      assert ToValid(t) == ToValid(t[1..]);
    } else {
      assert RemoveNul(b) == RemoveNul(b[1..]);
    }
  }
}
