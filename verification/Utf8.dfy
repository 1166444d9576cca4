/** UTF-8 as section 4 of RFC 3629 defines it: the well-formed byte sequences, the longest valid prefix,
    and the encoding of scalar values. */
module Utf8 {
  type Byte = x: nat | x < 256
  type Scalar = x: nat | x < 0xD800 || 0xE000 <= x < 0x11_0000

  predicate Tail(b: Byte) { 0x80 <= b <= 0xBF }

  // The grammar's four forms of one encoded character.
  predicate WellFormed(s: seq<Byte>) {
    || (|s| == 1 && s[0] <= 0x7F)
    || (|s| == 2 && 0xC2 <= s[0] <= 0xDF && Tail(s[1]))
    || (|s| == 3 && Tail(s[2]) &&
        (|| (s[0] == 0xE0 && 0xA0 <= s[1] <= 0xBF)
         || (0xE1 <= s[0] <= 0xEC && Tail(s[1]))
         || (s[0] == 0xED && 0x80 <= s[1] <= 0x9F)
         || (0xEE <= s[0] <= 0xEF && Tail(s[1]))))
    || (|s| == 4 && Tail(s[2]) && Tail(s[3]) &&
        (|| (s[0] == 0xF0 && 0x90 <= s[1] <= 0xBF)
         || (0xF1 <= s[0] <= 0xF3 && Tail(s[1]))
         || (s[0] == 0xF4 && 0x80 <= s[1] <= 0x8F)))
  }

  function Concat(parts: seq<seq<Byte>>): seq<Byte> { if parts == [] then [] else parts[0] + Concat(parts[1..]) }

  // A byte string is valid when it is a sequence of encoded characters.
  ghost predicate Valid(s: seq<Byte>) { exists parts: seq<seq<Byte>> :: Spells(parts, s) }

  ghost predicate Spells(parts: seq<seq<Byte>>, s: seq<Byte>) {
    Concat(parts) == s && forall i :: 0 <= i < |parts| ==> WellFormed(parts[i])
  }

  // The length of the character at the front, or 0 if there is none.
  function FirstLen(s: seq<Byte>): (n: nat)
    ensures n <= |s| && (n > 0 <==> exists k :: 0 < k <= |s| && WellFormed(s[..k]))
    ensures n > 0 ==> WellFormed(s[..n])
  {
    if |s| >= 1 && WellFormed(s[..1]) then 1
    else if |s| >= 2 && WellFormed(s[..2]) then 2
    else if |s| >= 3 && WellFormed(s[..3]) then 3
    else if |s| >= 4 && WellFormed(s[..4]) then 4
    else 0
  }

  // How far the bytes are valid: what `std::str::from_utf8` reports.
  function ValidUpTo(s: seq<Byte>): (n: nat)
    ensures n <= |s|
  {
    var k := FirstLen(s);
    if k == 0 then 0 else k + ValidUpTo(s[k..])
  }

  // A well-formed sequence is not a proper prefix of another.
  lemma PrefixFree(s: seq<Byte>, j: nat, k: nat)
    requires j <= |s| && k <= |s| && WellFormed(s[..j]) && WellFormed(s[..k])
    ensures j == k
  {
    assert s[..j][0] == s[0] == s[..k][0];
  }

  lemma {:induction false} PrefixIsValid(s: seq<Byte>)
    ensures Valid(s[..ValidUpTo(s)])
  {
    var k := FirstLen(s);
    if k == 0 {
      assert Spells([], s[..0]);
    } else {
      PrefixIsValid(s[k..]);
      var n := ValidUpTo(s[k..]);
      OneMoreCharacter(s[..k], s[k..][..n]);
      PrefixSplits(s, k, n);
    }
  }

  lemma PrefixSplits(s: seq<Byte>, k: nat, n: nat)
    requires k + n <= |s|
    ensures s[..k] + s[k..][..n] == s[..k + n]
  {}

  lemma OneMoreCharacter(first: seq<Byte>, rest: seq<Byte>)
    requires WellFormed(first) && Valid(rest)
    ensures Valid(first + rest)
  {
    var parts :| Spells(parts, rest);
    var all := [first] + parts;
    assert all[1..] == parts;
    assert Spells(all, first + rest);
  }

  lemma {:induction false} PartsFitInPrefix(s: seq<Byte>, parts: seq<seq<Byte>>)
    requires Concat(parts) <= s && forall i :: 0 <= i < |parts| ==> WellFormed(parts[i])
    ensures |Concat(parts)| <= ValidUpTo(s)
    decreases |parts|
  {
    if parts != [] {
      var k := |parts[0]|;
      assert s[..k] == parts[0] && WellFormed(parts[0]);
      PrefixFree(s, k, FirstLen(s));
      assert s[k..][..|Concat(parts[1..])|] == Concat(parts[1..]) by {
        assert s[..|Concat(parts)|] == Concat(parts);
        assert Concat(parts)[k..] == Concat(parts[1..]);
      }
      PartsFitInPrefix(s[k..], parts[1..]);
    }
  }

  /** `ValidUpTo` is the length of the longest valid prefix. */
  lemma LongestValidPrefix(s: seq<Byte>, m: nat)
    requires m <= |s|
    ensures Valid(s[..ValidUpTo(s)])
    ensures Valid(s[..m]) ==> m <= ValidUpTo(s)
  {
    PrefixIsValid(s);
    if Valid(s[..m]) {
      var parts :| Spells(parts, s[..m]);
      PartsFitInPrefix(s, parts);
    }
  }

  lemma {:induction false} ValidPrefixSplitsOff(parts: seq<seq<Byte>>, rest: seq<Byte>)
    requires forall i :: 0 <= i < |parts| ==> WellFormed(parts[i])
    ensures ValidUpTo(Concat(parts) + rest) == |Concat(parts)| + ValidUpTo(rest)
    decreases |parts|
  {
    var s := Concat(parts) + rest;
    if parts == [] {
      assert s == rest;
    } else {
      var k := |parts[0]|;
      assert s[..k] == parts[0] && WellFormed(parts[0]);
      PrefixFree(s, k, FirstLen(s));
      assert s[k..] == Concat(parts[1..]) + rest;
      ValidPrefixSplitsOff(parts[1..], rest);
    }
  }

  /** Validity is decided from any valid cut on: bytes already found valid need no second look. */
  lemma ValidUpToContinues(done: seq<Byte>, rest: seq<Byte>)
    requires Valid(done)
    ensures ValidUpTo(done + rest) == |done| + ValidUpTo(rest)
  {
    var parts :| Spells(parts, done);
    ValidPrefixSplitsOff(parts, rest);
  }

  // ----- Text -----

  function EncodeScalar(c: Scalar): (s: seq<Byte>)
    ensures WellFormed(s)
  {
    if c < 0x80 then [c]
    else if c < 0x800 then [0xC0 + c / 0x40, 0x80 + c % 0x40]
    else if c < 0x1_0000 then [0xE0 + c / 0x40 / 0x40, 0x80 + c / 0x40 % 0x40, 0x80 + c % 0x40]
    else [0xF0 + c / 0x40 / 0x40 / 0x40, 0x80 + c / 0x40 / 0x40 % 0x40, 0x80 + c / 0x40 % 0x40, 0x80 + c % 0x40]
  }

  // Six more bits from a continuation byte.
  function Extend(high: int, b: Byte): int { high * 0x40 + (b as int - 0x80) }

  function DecodeScalar(s: seq<Byte>): (c: Scalar)
    requires WellFormed(s)
  {
    var lead := s[0] as int;
    if |s| == 1 then lead
    else if |s| == 2 then Extend(lead - 0xC0, s[1])
    else if |s| == 3 then Extend(Extend(lead - 0xE0, s[1]), s[2])
    else Extend(Extend(Extend(lead - 0xF0, s[1]), s[2]), s[3])
  }

  lemma ScalarRoundTrip(c: Scalar)
    ensures DecodeScalar(EncodeScalar(c)) == c
  {
    SixBits(c);
    SixBits(c / 0x40);
    SixBits(c / 0x40 / 0x40);
  }

  lemma SixBits(n: nat)
    ensures Extend(n / 0x40, 0x80 + n % 0x40) == n
  {}

  function Encode(text: seq<Scalar>): seq<Byte> { if text == [] then [] else EncodeScalar(text[0]) + Encode(text[1..]) }

  // How many bytes one replacement character stands for where no character is: as much of a character as there is.
  function BadLen(s: seq<Byte>): (n: nat)
    requires s != []
    ensures 1 <= n <= |s|
  {
    if |s| >= 3 && WellFormed(s[..3] + [0x80]) then 3
    else if |s| >= 2 && (WellFormed(s[..2] + [0x80]) || WellFormed(s[..2] + [0x80, 0x80])) then 2
    else 1
  }

  // `String::from_utf8_lossy`.
  function Decode(s: seq<Byte>): seq<Scalar> {
    if s == [] then []
    else
      var k := FirstLen(s);
      if k == 0 then [0xFFFD] + Decode(s[BadLen(s)..])
      else [DecodeScalar(s[..k])] + Decode(s[k..])
  }

  /** Text survives encoding. */
  lemma {:induction false} TextRoundTrip(text: seq<Scalar>)
    ensures Decode(Encode(text)) == text
  {
    if text != [] {
      var s, head := Encode(text), EncodeScalar(text[0]);
      assert s[..|head|] == head;
      PrefixFree(s, |head|, FirstLen(s));
      assert s[|head|..] == Encode(text[1..]);
      ScalarRoundTrip(text[0]);
      TextRoundTrip(text[1..]);
      assert Decode(s) == [text[0]] + text[1..];
    }
  }

  lemma {:induction false} EncodeAppends(a: seq<Scalar>, b: seq<Scalar>)
    ensures Encode(a + b) == Encode(a) + Encode(b)
  {
    if a == [] {
      assert a + b == b;
    } else {
      assert (a + b)[1..] == a[1..] + b;
      EncodeAppends(a[1..], b);
    }
  }
}
