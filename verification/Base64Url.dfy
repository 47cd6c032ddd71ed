/** The base64url alphabet and coding of section 5 of RFC 4648, with and without padding, as the
    Go encodings `URLEncoding` and `RawURLEncoding` do it. */
module Base64Url {
  import opened Prelude
  import opened Strings

  type Byte = b: int | 0 <= b < 256

  /** The value of a character of the alphabet. */
  function ValueOf(c: char): Option<int> {
    if 'A' <= c <= 'Z' then Some(c as int - 'A' as int)
    else if 'a' <= c <= 'z' then Some(26 + c as int - 'a' as int)
    else if '0' <= c <= '9' then Some(52 + c as int - '0' as int)
    else if c == '-' then Some(62)
    else if c == '_' then Some(63)
    else None
  }

  function CharOf(v: int): (c: char)
    requires 0 <= v < 64
    ensures ValueOf(c) == Some(v)
  {
    if v < 26 then ('A' as int + v) as char
    else if v < 52 then ('a' as int + (v - 26)) as char
    else if v < 62 then ('0' as int + (v - 52)) as char
    else if v == 62 then '-'
    else '_'
  }

  /** Each character of the alphabet has one value and each value one character. */
  lemma AlphabetIsCode(c: char, v: int)
    ensures ValueOf(c) == Some(v) <==> 0 <= v < 64 && c == CharOf(v)
  {
  }

  /** Groups of three bytes become four characters; a short last group is padded with '='. */
  function EncodePadded(d: seq<Byte>): string {
    if d == [] then ""
    else if |d| == 1 then [CharOf(d[0] / 4), CharOf(d[0] % 4 * 16), '=', '=']
    else if |d| == 2 then [CharOf(d[0] / 4), CharOf(d[0] % 4 * 16 + d[1] / 16), CharOf(d[1] % 16 * 4), '=']
    else [CharOf(d[0] / 4), CharOf(d[0] % 4 * 16 + d[1] / 16), CharOf(d[1] % 16 * 4 + d[2] / 64), CharOf(d[2] % 64)]
         + EncodePadded(d[3..])
  }

  /** The coding without padding. */
  function EncodeRaw(d: seq<Byte>): (s: string)
    ensures forall i :: 0 <= i < |s| ==> ValueOf(s[i]).Some?
  {
    if d == [] then ""
    else if |d| == 1 then [CharOf(d[0] / 4), CharOf(d[0] % 4 * 16)]
    else if |d| == 2 then [CharOf(d[0] / 4), CharOf(d[0] % 4 * 16 + d[1] / 16), CharOf(d[1] % 16 * 4)]
    else [CharOf(d[0] / 4), CharOf(d[0] % 4 * 16 + d[1] / 16), CharOf(d[1] % 16 * 4 + d[2] / 64), CharOf(d[2] % 64)]
         + EncodeRaw(d[3..])
  }

  /** `base64URL`: encode with padding, then trim the padding off. */
  function Base64URL(d: seq<Byte>): string {
    Trimmed(EncodePadded(d), '=')
  }

  lemma {:induction false} PaddedIsRawPadded(d: seq<Byte>)
    ensures EncodeRaw(d) <= EncodePadded(d) && |EncodePadded(d)| % 4 == 0
    ensures forall i :: |EncodeRaw(d)| <= i < |EncodePadded(d)| ==> EncodePadded(d)[i] == '='
  {
    if |d| >= 3 {
      PaddedIsRawPadded(d[3..]);
      var p, r := EncodePadded(d), EncodeRaw(d);
      assert p[..4] == r[..4] && p[4..] == EncodePadded(d[3..]) && r[4..] == EncodeRaw(d[3..]);
      assert forall i :: |r| <= i < |p| ==> p[i] == p[4..][i - 4];
      assert forall i :: 4 <= i < |r| ==> p[i] == p[4..][i - 4] && r[i] == r[4..][i - 4];
    }
  }

  /** Trimming the padding gives the unpadded coding, for every byte string. */
  lemma TrimGivesRaw(d: seq<Byte>)
    ensures Base64URL(d) == EncodeRaw(d)
  {
    PaddedIsRawPadded(d);
    assert EncodeRaw(d) != "" ==> ValueOf(EncodeRaw(d)[|EncodeRaw(d)| - 1]).Some?;
    TrimmedUnique(EncodePadded(d), '=', EncodeRaw(d));
  }

  /** The decoder skips line breaks wherever they stand. */
  function WithoutBreaks(s: string): string {
    if s == "" then ""
    else (if s[0] == '\r' || s[0] == '\n' then "" else [s[0]]) + WithoutBreaks(s[1..])
  }

  /** Unused bits of the last character are not checked; a single left-over character is an error. */
  function DecodeGroups(s: string): Option<seq<Byte>> {
    if s == "" then Some([])
    else if |s| == 1 then None
    else
      match (ValueOf(s[0]), ValueOf(s[1]))
      case (Some(a), Some(b)) =>
        if |s| == 2 then Some([a * 4 + b / 16])
        else (
          match ValueOf(s[2])
          case None => None
          case Some(c) =>
            if |s| == 3 then Some([a * 4 + b / 16, b % 16 * 16 + c / 4])
            else (
              match (ValueOf(s[3]), DecodeGroups(s[4..]))
              case (Some(d), Some(rest)) => Some([a * 4 + b / 16, b % 16 * 16 + c / 4, c % 4 * 64 + d] + rest)
              case _ => None))
      case _ => None
  }

  function Decode(s: string): Option<seq<Byte>> {
    DecodeGroups(WithoutBreaks(s))
  }

  lemma {:induction false} NoBreaks(s: string)
    requires '\r' !in s && '\n' !in s
    ensures WithoutBreaks(s) == s
  {
    if s != "" {
      NoBreaks(s[1..]);
      assert [s[0]] + s[1..] == s;
    }
  }

  /** A full group decodes to its three bytes, in front of what the rest decodes to. */
  lemma DecodeGroup(x: Byte, y: Byte, z: Byte, tail: string, rest: seq<Byte>)
    requires DecodeGroups(tail) == Some(rest)
    ensures DecodeGroups([CharOf(x / 4), CharOf(x % 4 * 16 + y / 16),
                          CharOf(y % 16 * 4 + z / 64), CharOf(z % 64)] + tail)
            == Some([x, y, z] + rest)
  {
    var s := [CharOf(x / 4), CharOf(x % 4 * 16 + y / 16), CharOf(y % 16 * 4 + z / 64), CharOf(z % 64)] + tail;
    assert s[4..] == tail;
    GroupOfThree(x, y, z);
  }

  lemma ShortGroups(x: Byte, y: Byte)
    ensures DecodeGroups([CharOf(x / 4), CharOf(x % 4 * 16)]) == Some([x])
    ensures DecodeGroups([CharOf(x / 4), CharOf(x % 4 * 16 + y / 16), CharOf(y % 16 * 4)]) == Some([x, y])
  {
    GroupOfThree(x, 0, 0);
    GroupOfThree(x, y, 0);
  }

  lemma {:induction false} DecodeGroupsRaw(d: seq<Byte>)
    ensures DecodeGroups(EncodeRaw(d)) == Some(d)
  {
    if |d| >= 3 {
      DecodeGroupsRaw(d[3..]);
      DecodeGroup(d[0], d[1], d[2], EncodeRaw(d[3..]), d[3..]);
      assert d == [d[0], d[1], d[2]] + d[3..];
    } else if |d| > 0 {
      ShortGroups(d[0], if |d| == 2 then d[1] else 0);
      assert d == if |d| == 2 then [d[0], d[1]] else [d[0]];
    }
  }

  lemma GroupOfThree(x: Byte, y: Byte, z: Byte)
    ensures (x / 4) * 4 + (x % 4 * 16 + y / 16) / 16 == x
    ensures (x % 4 * 16 + y / 16) % 16 * 16 + (y % 16 * 4 + z / 64) / 4 == y
    ensures (y % 16 * 4 + z / 64) % 4 * 64 + z % 64 == z
  {
  }

  /** Decoding inverts `base64URL`, for every byte string. */
  lemma DecodeInverts(d: seq<Byte>)
    ensures Decode(Base64URL(d)) == Some(d)
  {
    TrimGivesRaw(d);
    NoBreaks(EncodeRaw(d));
    DecodeGroupsRaw(d);
  }

  /** The output is of the alphabet only: no padding and no dot. */
  lemma OnlyAlphabet(d: seq<Byte>)
    ensures forall i :: 0 <= i < |Base64URL(d)| ==> ValueOf(Base64URL(d)[i]).Some?
    ensures '.' !in Base64URL(d) && '=' !in Base64URL(d)
  {
    TrimGivesRaw(d);
  }

  /** What the decoder accepts, apart from line breaks: characters of the alphabet, in any number
      that does not leave one over. */
  lemma {:induction false} DecodeAccepts(s: string)
    ensures DecodeGroups(s).Some? <==> |s| % 4 != 1 && forall i :: 0 <= i < |s| ==> ValueOf(s[i]).Some?
  {
    if |s| >= 4 {
      DecodeAccepts(s[4..]);
      assert forall i :: 4 <= i < |s| ==> s[i] == s[4..][i - 4];
    }
  }

  /** The bits of the last character that no byte takes up are zero. */
  predicate Canonical(s: string) {
    s != "" && ValueOf(s[|s| - 1]).Some? ==>
      (|s| % 4 == 2 ==> ValueOf(s[|s| - 1]).value % 16 == 0) && (|s| % 4 == 3 ==> ValueOf(s[|s| - 1]).value % 4 == 0)
  }

  /** The bytes of a full group, and the characters' values in terms of them. */
  lemma FullGroup(a: int, b: int, c: int, d: int) returns (x: Byte, y: Byte, z: Byte)
    requires 0 <= a < 64 && 0 <= b < 64 && 0 <= c < 64 && 0 <= d < 64
    ensures x == a * 4 + b / 16 && y == b % 16 * 16 + c / 4 && z == c % 4 * 64 + d
    ensures x / 4 == a && x % 4 * 16 + y / 16 == b && y % 16 * 4 + z / 64 == c && z % 64 == d
  {
    x, y, z := a * 4 + b / 16, b % 16 * 16 + c / 4, c % 4 * 64 + d;
  }

  lemma DecodeFour(s: string, a: int, b: int, c: int, d: int, rest: seq<Byte>)
    requires |s| >= 4 && ValueOf(s[0]) == Some(a) && ValueOf(s[1]) == Some(b)
    requires ValueOf(s[2]) == Some(c) && ValueOf(s[3]) == Some(d) && DecodeGroups(s[4..]) == Some(rest)
    ensures DecodeGroups(s) == Some([a * 4 + b / 16, b % 16 * 16 + c / 4, c % 4 * 64 + d] + rest)
  {
  }

  lemma DecodeShort(s: string, a: int, b: int, c: int)
    requires 2 <= |s| <= 3 && ValueOf(s[0]) == Some(a) && ValueOf(s[1]) == Some(b)
    requires |s| == 3 ==> ValueOf(s[2]) == Some(c)
    ensures DecodeGroups(s)
            == Some(if |s| == 2 then [a * 4 + b / 16] else [a * 4 + b / 16, b % 16 * 16 + c / 4])
  {
  }

  lemma EncodeThree(x: Byte, y: Byte, z: Byte, rest: seq<Byte>)
    ensures EncodeRaw([x, y, z] + rest)
            == Chars(x / 4, x % 4 * 16 + y / 16, y % 16 * 4 + z / 64, z % 64) + EncodeRaw(rest)
  {
    assert ([x, y, z] + rest)[3..] == rest;
  }

  function Chars(a: int, b: int, c: int, d: int): string
    requires 0 <= a < 64 && 0 <= b < 64 && 0 <= c < 64 && 0 <= d < 64
  {
    [CharOf(a), CharOf(b), CharOf(c), CharOf(d)]
  }

  lemma FourBack(s: string, a: int, b: int, c: int, d: int)
    requires |s| == 4 && ValueOf(s[0]) == Some(a) && ValueOf(s[1]) == Some(b)
    requires ValueOf(s[2]) == Some(c) && ValueOf(s[3]) == Some(d)
    ensures 0 <= a < 64 && 0 <= b < 64 && 0 <= c < 64 && 0 <= d < 64 && s == Chars(a, b, c, d)
  {
    AlphabetIsCode(s[0], a);
    AlphabetIsCode(s[1], b);
    AlphabetIsCode(s[2], c);
    AlphabetIsCode(s[3], d);
  }

  lemma SameChars(x: Byte, y: Byte, z: Byte, a: int, b: int, c: int, d: int)
    requires 0 <= a < 64 && 0 <= b < 64 && 0 <= c < 64 && 0 <= d < 64
    requires x / 4 == a && x % 4 * 16 + y / 16 == b && y % 16 * 4 + z / 64 == c && z % 64 == d
    ensures Chars(x / 4, x % 4 * 16 + y / 16, y % 16 * 4 + z / 64, z % 64) == Chars(a, b, c, d)
  {
  }

  lemma DecodedGroup(s: string, rest: seq<Byte>) returns (x: Byte, y: Byte, z: Byte)
    requires |s| >= 4 && (forall i :: 0 <= i < 4 ==> ValueOf(s[i]).Some?) && DecodeGroups(s[4..]) == Some(rest)
    ensures DecodeGroups(s) == Some([x, y, z] + rest)
    ensures s[..4] == Chars(x / 4, x % 4 * 16 + y / 16, y % 16 * 4 + z / 64, z % 64)
  {
    var a, b, c, d := ValueOf(s[0]).value, ValueOf(s[1]).value, ValueOf(s[2]).value, ValueOf(s[3]).value;
    FourBack(s[..4], a, b, c, d);
    DecodeFour(s, a, b, c, d, rest);
    x, y, z := FullGroup(a, b, c, d);
    SameChars(x, y, z, a, b, c, d);
  }

  /** Decoding a full group and coding it again gives the group. */
  lemma ReencodeGroup(s: string, rest: seq<Byte>)
    requires |s| >= 4 && (forall i :: 0 <= i < 4 ==> ValueOf(s[i]).Some?) && DecodeGroups(s[4..]) == Some(rest)
    ensures DecodeGroups(s).Some? && EncodeRaw(DecodeGroups(s).value) == s[..4] + EncodeRaw(rest)
  {
    var x, y, z := DecodedGroup(s, rest);
    EncodeThree(x, y, z, rest);
  }

  lemma TwoBytes(a: int, b: int, c: int) returns (x: Byte, y: Byte)
    requires 0 <= a < 64 && 0 <= b < 64 && 0 <= c < 64
    ensures x == a * 4 + b / 16 && y == b % 16 * 16 + c / 4
    ensures x / 4 == a && (x % 4 * 16 == b <==> b % 16 == 0)
    ensures x % 4 * 16 + y / 16 == b && (y % 16 * 4 == c <==> c % 4 == 0)
  {
    x, y := a * 4 + b / 16, b % 16 * 16 + c / 4;
  }

  lemma TwoAgain(s: string, a: int, b: int, x: Byte)
    requires |s| == 2 && ValueOf(s[0]) == Some(a) && ValueOf(s[1]) == Some(b) && x / 4 == a
    ensures EncodeRaw([x]) == s <==> x % 4 * 16 == b
  {
    AlphabetIsCode(s[0], a);
    AlphabetIsCode(s[1], x % 4 * 16);
    assert EncodeRaw([x]) == [CharOf(x / 4), CharOf(x % 4 * 16)];
  }

  lemma ThreeAgain(s: string, a: int, b: int, c: int, x: Byte, y: Byte)
    requires |s| == 3 && ValueOf(s[0]) == Some(a) && ValueOf(s[1]) == Some(b) && ValueOf(s[2]) == Some(c)
    requires x / 4 == a && x % 4 * 16 + y / 16 == b
    ensures EncodeRaw([x, y]) == s <==> y % 16 * 4 == c
  {
    AlphabetIsCode(s[0], a);
    AlphabetIsCode(s[1], b);
    AlphabetIsCode(s[2], y % 16 * 4);
    assert EncodeRaw([x, y]) == [CharOf(x / 4), CharOf(x % 4 * 16 + y / 16), CharOf(y % 16 * 4)];
  }

  lemma ReencodeShort(s: string, a: int, b: int, c: int)
    requires 2 <= |s| <= 3 && ValueOf(s[0]) == Some(a) && ValueOf(s[1]) == Some(b)
    requires if |s| == 3 then ValueOf(s[2]) == Some(c) else c == 0
    requires 0 <= a < 64 && 0 <= b < 64 && 0 <= c < 64
    ensures DecodeGroups(s).Some?
    ensures EncodeRaw(DecodeGroups(s).value) == s <==> if |s| == 2 then b % 16 == 0 else c % 4 == 0
  {
    var x, y := TwoBytes(a, b, c);
    DecodeShort(s, a, b, c);
    if |s| == 2 {
      TwoAgain(s, a, b, x);
    } else {
      ThreeAgain(s, a, b, c, x, y);
    }
  }

  lemma CanonicalTail(s: string)
    requires |s| >= 4
    ensures |s| > 4 ==> (Canonical(s) <==> Canonical(s[4..]))
    ensures |s| == 4 ==> Canonical(s) && Canonical(s[4..])
  {
    if |s| > 4 {
      assert s[|s| - 1] == s[4..][|s| - 5];
    }
  }

  lemma ValueRange(c: char)
    ensures ValueOf(c).Some? ==> 0 <= ValueOf(c).value < 64
  {
  }

  lemma ReencodesShort(s: string)
    requires 2 <= |s| <= 3 && forall i :: 0 <= i < |s| ==> ValueOf(s[i]).Some?
    ensures DecodeGroups(s).Some? && (EncodeRaw(DecodeGroups(s).value) == s <==> Canonical(s))
  {
    ValueRange(s[0]);
    ValueRange(s[1]);
    if |s| == 3 {
      ValueRange(s[2]);
      ReencodeShort(s, ValueOf(s[0]).value, ValueOf(s[1]).value, ValueOf(s[2]).value);
    } else {
      ReencodeShort(s, ValueOf(s[0]).value, ValueOf(s[1]).value, 0);
    }
  }

  lemma ReencodesLong(s: string)
    requires DecodeGroups(s).Some? && |s| >= 4
    ensures DecodeGroups(s[4..]).Some?
    ensures EncodeRaw(DecodeGroups(s).value) == s <==> EncodeRaw(DecodeGroups(s[4..]).value) == s[4..]
  {
    DecodeAccepts(s);
    DecodeAccepts(s[4..]);
    var rest := DecodeGroups(s[4..]).value;
    ReencodeGroup(s, rest);
    SameTail(s, EncodeRaw(rest));
  }

  /** What the decoder accepts is the coding of what it yields exactly when the unused bits of the last
      character are zero: a text whose length is not a multiple of four has other spellings, which the
      decoder accepts as well. */
  lemma {:induction false} ReencodesIff(s: string)
    requires DecodeGroups(s).Some?
    ensures EncodeRaw(DecodeGroups(s).value) == s <==> Canonical(s)
  {
    DecodeAccepts(s);
    if 2 <= |s| <= 3 {
      ReencodesShort(s);
    } else if |s| >= 4 {
      ReencodesLong(s);
      ReencodesIff(s[4..]);
      CanonicalTail(s);
    }
  }

  lemma SameTail(s: string, tail: string)
    requires |s| >= 4
    ensures s[..4] + tail == s <==> tail == s[4..]
  {
    assert s == s[..4] + s[4..];
    assert (s[..4] + tail)[4..] == tail;
  }

  // ----- the coding itself

  lemma Letters(v: int)
    requires 0 <= v < 26
    ensures "ABCDEFGHIJKLMNOPQRSTUVWXYZ"[v] == (0x41 + v) as char
    ensures "abcdefghijklmnopqrstuvwxyz"[v] == (0x61 + v) as char
  {
  }

  lemma Figures(v: int)
    requires 0 <= v < 10
    ensures "0123456789"[v] == (0x30 + v) as char
  {
  }

  lemma InFour(a: string, b: string, c: string, d: string, v: int)
    requires |a| == 26 && |b| == 26 && |c| == 10 && |d| == 2 && 0 <= v < 64
    ensures (a + b + c + d)[v]
            == if v < 26 then a[v] else if v < 52 then b[v - 26] else if v < 62 then c[v - 52] else d[v - 62]
  {
  }

  /** The alphabet of table 2 in section 5 of RFC 4648. */
  lemma AlphabetOfStandard(v: int)
    requires 0 <= v < 64
    ensures CharOf(v) == ("ABCDEFGHIJKLMNOPQRSTUVWXYZ" + "abcdefghijklmnopqrstuvwxyz" + "0123456789" + "-_")[v]
  {
    InFour("ABCDEFGHIJKLMNOPQRSTUVWXYZ", "abcdefghijklmnopqrstuvwxyz", "0123456789", "-_", v);
    if v < 26 {
      Letters(v);
    } else if v < 52 {
      Letters(v - 26);
    } else if v < 62 {
      Figures(v - 52);
    }
  }

  /** Characters and bytes of a group spell the same number, the first the most significant. */
  lemma GroupSpellsNumber(x: Byte, y: Byte, z: Byte, rest: seq<Byte>, a: int, b: int, c: int, d: int)
    requires 0 <= a < 64 && 0 <= b < 64 && 0 <= c < 64 && 0 <= d < 64
    requires a * 0x40000 + b * 0x1000 + c * 0x40 + d == x * 0x10000 + y * 0x100 + z
    ensures EncodeRaw([x, y, z] + rest) == [CharOf(a), CharOf(b), CharOf(c), CharOf(d)] + EncodeRaw(rest)
  {
    SpelledFour(x, y, z, a, b, c, d);
    EncodeThree(x, y, z, rest);
  }

  /** In a group of two bytes the bits left over are zero. */
  lemma TwoSpellNumber(x: Byte, y: Byte, a: int, b: int, c: int)
    requires 0 <= a < 64 && 0 <= b < 64 && 0 <= c < 64 && a * 0x1000 + b * 0x40 + c == (x * 0x100 + y) * 4
    ensures EncodeRaw([x, y]) == [CharOf(a), CharOf(b), CharOf(c)]
  {
    SpelledThree(x, y, a, b, c);
    assert EncodeRaw([x, y]) == [CharOf(x / 4), CharOf(x % 4 * 16 + y / 16), CharOf(y % 16 * 4)];
  }

  /** And in a group of one. */
  lemma OneSpellsNumber(x: Byte, a: int, b: int)
    requires 0 <= a < 64 && 0 <= b < 64 && a * 0x40 + b == x * 16
    ensures EncodeRaw([x]) == [CharOf(a), CharOf(b)]
    ensures EncodeRaw([]) == ""
  {
    assert x / 4 == a && x % 4 * 16 == b;
    assert EncodeRaw([x]) == [CharOf(x / 4), CharOf(x % 4 * 16)];
  }

  lemma SpelledFour(x: Byte, y: Byte, z: Byte, a: int, b: int, c: int, d: int)
    requires 0 <= a < 64 && 0 <= b < 64 && 0 <= c < 64 && 0 <= d < 64
    requires a * 0x40000 + b * 0x1000 + c * 0x40 + d == x * 0x10000 + y * 0x100 + z
    ensures x / 4 == a && x % 4 * 16 + y / 16 == b && y % 16 * 4 + z / 64 == c && z % 64 == d
  {
  }

  lemma SpelledThree(x: Byte, y: Byte, a: int, b: int, c: int)
    requires 0 <= a < 64 && 0 <= b < 64 && 0 <= c < 64 && a * 0x1000 + b * 0x40 + c == (x * 0x100 + y) * 4
    ensures x / 4 == a && x % 4 * 16 + y / 16 == b && y % 16 * 4 == c
  {
  }

  /** Line breaks count for nothing, wherever they stand; everything else does. */
  lemma {:induction false} BreaksSkipped(a: string, b: string)
    ensures Decode(a + "\n" + b) == Decode(a + b) && Decode(a + "\r" + b) == Decode(a + b)
    ensures '\n' !in a && '\r' !in a ==> Decode(a) == DecodeGroups(a)
  {
    BreakSkipped(a, '\n', b);
    BreakSkipped(a, '\r', b);
    if '\n' !in a && '\r' !in a {
      NoBreaks(a);
    }
  }

  lemma {:induction false} BreakSkipped(a: string, c: char, b: string)
    requires c == '\n' || c == '\r'
    ensures WithoutBreaks(a + [c] + b) == WithoutBreaks(a + b)
  {
    if a == "" {
      assert (a + [c] + b)[1..] == b && a + b == b;
    } else {
      BreakSkipped(a[1..], c, b);
      assert (a + [c] + b)[1..] == a[1..] + [c] + b && (a + b)[1..] == a[1..] + b;
    }
  }
}
