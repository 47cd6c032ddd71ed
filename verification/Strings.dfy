/** Splitting and trimming strings as Go's `strings` package does.  A character stands for one byte of
    a Go string, or for one Unicode character where a text is only cut at ASCII characters and
    trimmed. */
module Strings {

  /** strings.Split with a separator of one byte. */
  function Split(s: string, sep: char): (parts: seq<string>)
    ensures |parts| > 0
  {
    if s == "" then [""]
    else
      var rest := Split(s[1..], sep);
      if s[0] == sep then [""] + rest else [[s[0]] + rest[0]] + rest[1..]
  }

  function Join(parts: seq<string>, sep: string): string {
    if parts == [] then ""
    else if |parts| == 1 then parts[0]
    else parts[0] + sep + Join(parts[1..], sep)
  }

  /** Splitting peels off the first part. */
  lemma {:induction false} SplitFirst(a: string, rest: string, sep: char)
    requires sep !in a
    ensures Split(a + [sep] + rest, sep) == [a] + Split(rest, sep)
    ensures Split(a, sep) == [a]
  {
    var s := a + [sep] + rest;
    if a == "" {
      assert s[1..] == rest;
    } else {
      SplitFirst(a[1..], rest, sep);
      assert s[1..] == a[1..] + [sep] + rest;
      assert [a[0]] + a[1..] == a;
    }
  }

  /** Split undoes Join when no part contains the separator. */
  lemma {:induction false} SplitJoin(parts: seq<string>, sep: char)
    requires parts != [] && forall i :: 0 <= i < |parts| ==> sep !in parts[i]
    ensures Split(Join(parts, [sep]), sep) == parts
  {
    if |parts| == 1 {
      SplitFirst(parts[0], "", sep);
    } else {
      var rest := Join(parts[1..], [sep]);
      SplitJoin(parts[1..], sep);
      SplitFirst(parts[0], rest, sep);
      assert Join(parts, [sep]) == parts[0] + [sep] + rest;
      assert [parts[0]] + parts[1..] == parts;
    }
  }

  /** Join undoes Split, for every string. */
  lemma {:induction false} JoinSplit(s: string, sep: char)
    ensures Join(Split(s, sep), [sep]) == s
  {
    if s != "" {
      JoinSplit(s[1..], sep);
      var rest := Split(s[1..], sep);
      if s[0] == sep {
        assert ([""] + rest)[1..] == rest;
        assert s == [sep] + s[1..];
      } else {
        var parts := [[s[0]] + rest[0]] + rest[1..];
        assert parts[1..] == rest[1..];
        if |rest| > 1 {
          assert Join(parts, [sep]) == [s[0]] + (rest[0] + [sep] + Join(rest[1..], [sep]));
        }
        assert s == [s[0]] + s[1..];
      }
    }
  }

  /** Splitting at the first separator is unambiguous when the left parts do not contain it. */
  lemma SeparatorInjective(a: string, b: string, x: string, y: string, c: char)
    requires c !in a && c !in b
    requires a + [c] + x == b + [c] + y
    ensures a == b && x == y
  {
    var l, r := a + [c] + x, b + [c] + y;
    assert l[|a|] == c && r[|b|] == c;
    assert forall i :: 0 <= i < |a| ==> l[i] == a[i] && l[i] != c;
    assert forall i :: 0 <= i < |b| ==> r[i] == b[i] && r[i] != c;
    assert |a| == |b|;
    assert l[..|a|] == a && r[..|b|] == b;
    assert l[|a| + 1..] == x && r[|b| + 1..] == y;
  }

  /** `s` without the longest run of `c` at its end. */
  function Trimmed(s: string, c: char): (r: string)
    ensures r <= s && (r == "" || r[|r| - 1] != c)
    ensures forall i :: |r| <= i < |s| ==> s[i] == c
  {
    if s != "" && s[|s| - 1] == c then Trimmed(s[..|s| - 1], c) else s
  }

  /** There is only one way to trim. */
  lemma TrimmedUnique(s: string, c: char, r: string)
    requires r <= s && (r == "" || r[|r| - 1] != c) && forall i :: |r| <= i < |s| ==> s[i] == c
    ensures Trimmed(s, c) == r
  {
    var t := Trimmed(s, c);
    assert |t| == |r|;
    assert t == s[..|t|] && r == s[..|r|];
  }

  method TrimRight(s: string, c: char) returns (r: string)
    ensures r == Trimmed(s, c)
  {
    var i := |s|;
    while i > 0 && s[i - 1] == c
      invariant 0 <= i <= |s|
      invariant forall j :: i <= j < |s| ==> s[j] == c
    {
      i := i - 1;
    }
    TrimmedUnique(s, c, s[..i]);
    return s[..i];
  }

  /** unicode.IsSpace. */
  predicate IsSpace(c: char) {
    c == ' ' || '\t' <= c <= '\r' || c == 0x85 as char || c == 0xA0 as char || c == 0x1680 as char
    || 0x2000 as char <= c <= 0x200A as char || c == 0x2028 as char || c == 0x2029 as char
    || c == 0x202F as char || c == 0x205F as char || c == 0x3000 as char
  }

  function TrimLeftSpace(s: string): string {
    if s != "" && IsSpace(s[0]) then TrimLeftSpace(s[1..]) else s
  }

  function TrimRightSpace(s: string): string {
    if s != "" && IsSpace(s[|s| - 1]) then TrimRightSpace(s[..|s| - 1]) else s
  }

  function TrimSpace(s: string): string {
    TrimRightSpace(TrimLeftSpace(s))
  }

  /** strings.SplitN(s, sep, 2): the text before the first separator and all the text after it. */
  function Cut(s: string, sep: char): (parts: seq<string>)
    ensures |parts| == 2 <==> sep in s
    ensures |parts| == 1 || |parts| == 2
  {
    if s == "" then [""]
    else if s[0] == sep then ["", s[1..]]
    else
      var rest := Cut(s[1..], sep);
      [[s[0]] + rest[0]] + rest[1..]
  }

  /** Cutting undoes putting a separator after a text that has none. */
  lemma {:induction false} CutJoined(a: string, b: string, sep: char)
    requires sep !in a
    ensures Cut(a + [sep] + b, sep) == [a, b]
  {
    var s := a + [sep] + b;
    if a == "" {
      assert s[1..] == b;
    } else {
      CutJoined(a[1..], b, sep);
      assert s[1..] == a[1..] + [sep] + b;
      assert [a[0]] + a[1..] == a;
    }
  }

  /** No part of a split text has the separator in it. */
  lemma {:induction false} SplitClean(s: string, sep: char)
    ensures forall i :: 0 <= i < |Split(s, sep)| ==> sep !in Split(s, sep)[i]
  {
    if s != "" {
      SplitClean(s[1..], sep);
    }
  }

  /** The white space that trimming takes off is that of Unicode. */
  lemma SpacesOfUnicode(c: char)
    ensures IsSpace(c) <==> 0x09 <= c as int <= 0x0D || 0x2000 <= c as int <= 0x200A ||
                            c as int in {0x20, 0x85, 0xA0, 0x1680, 0x2028, 0x2029, 0x202F, 0x205F, 0x3000}
  {
  }

  /** `s` is `t` between white space, and `t` neither begins nor ends with any. */
  predicate IsTrimmed(s: string, a: string, t: string, b: string) {
    s == a + t + b && (forall i :: 0 <= i < |a| ==> IsSpace(a[i])) && (forall i :: 0 <= i < |b| ==> IsSpace(b[i]))
    && (t != "" ==> !IsSpace(t[0]) && !IsSpace(t[|t| - 1]))
  }

  lemma {:induction false} LeftTrimmed(s: string)
    ensures |TrimLeftSpace(s)| <= |s| && s[|s| - |TrimLeftSpace(s)|..] == TrimLeftSpace(s)
    ensures forall i :: 0 <= i < |s| - |TrimLeftSpace(s)| ==> IsSpace(s[i])
    ensures TrimLeftSpace(s) != "" ==> !IsSpace(TrimLeftSpace(s)[0])
  {
    if s != "" && IsSpace(s[0]) {
      LeftTrimmed(s[1..]);
      OneMoreSpace(s, TrimLeftSpace(s[1..]));
    }
  }

  lemma OneMoreSpace(s: string, l: string)
    requires s != "" && IsSpace(s[0]) && |l| < |s| && s[1..][|s| - 1 - |l|..] == l
    requires forall i :: 0 <= i < |s| - 1 - |l| ==> IsSpace(s[1..][i])
    ensures s[|s| - |l|..] == l && forall i :: 0 <= i < |s| - |l| ==> IsSpace(s[i])
  {
    assert forall i :: 1 <= i < |s| ==> s[i] == s[1..][i - 1];
  }

  lemma {:induction false} RightTrimmed(s: string)
    ensures TrimRightSpace(s) <= s && forall i :: |TrimRightSpace(s)| <= i < |s| ==> IsSpace(s[i])
    ensures TrimRightSpace(s) != "" ==> !IsSpace(TrimRightSpace(s)[|TrimRightSpace(s)| - 1])
  {
    if s != "" && IsSpace(s[|s| - 1]) {
      RightTrimmed(s[..|s| - 1]);
    }
  }

  lemma TrimmedParts(s: string, l: string, t: string)
    requires |l| <= |s| && s[|s| - |l|..] == l && forall i :: 0 <= i < |s| - |l| ==> IsSpace(s[i])
    requires t <= l && forall i :: |t| <= i < |l| ==> IsSpace(l[i])
    requires (l != "" ==> !IsSpace(l[0])) && (t != "" ==> !IsSpace(t[|t| - 1]))
    ensures IsTrimmed(s, s[..|s| - |l|], t, l[|t|..])
  {
    assert s == s[..|s| - |l|] + l && l == t + l[|t|..];
    assert t != "" ==> t[0] == l[0];
  }

  /** Trimming takes off all white space at both ends and nothing else. */
  lemma TrimmedBothEnds(s: string)
    ensures exists a, b :: IsTrimmed(s, a, TrimSpace(s), b)
  {
    LeftTrimmed(s);
    RightTrimmed(TrimLeftSpace(s));
    TrimmedParts(s, TrimLeftSpace(s), TrimSpace(s));
  }

  /** There is only one way to trim a text that is not blank. */
  lemma TrimmedOneWay(s: string, a: string, t: string, b: string)
    requires IsTrimmed(s, a, t, b)
    ensures TrimSpace(s) == t
  {
    TrimmedBothEnds(s);
    var a', b' :| IsTrimmed(s, a', TrimSpace(s), b');
    SameTrim(s, a, t, b, a', TrimSpace(s), b');
  }

  predicate FirstSolid(s: string, i: int) {
    0 <= i < |s| && !IsSpace(s[i]) && forall j :: 0 <= j < i ==> IsSpace(s[j])
  }

  predicate LastSolid(s: string, i: int) {
    0 <= i < |s| && !IsSpace(s[i]) && forall j :: i < j < |s| ==> IsSpace(s[j])
  }

  lemma TrimmedAt(s: string, a: string, t: string, b: string)
    requires IsTrimmed(s, a, t, b)
    ensures t == "" <==> forall i :: 0 <= i < |s| ==> IsSpace(s[i])
    ensures t != "" ==> FirstSolid(s, |a|) && LastSolid(s, |a| + |t| - 1) && t == s[|a|..|a| + |t|]
  {
    if t != "" {
      assert s[|a|] == t[0] && s[|a| + |t| - 1] == t[|t| - 1];
      assert forall j :: 0 <= j < |a| ==> s[j] == a[j];
      assert forall j :: |a| + |t| <= j < |s| ==> s[j] == b[j - |a| - |t|];
    }
  }

  lemma SameTrim(s: string, a: string, t: string, b: string, a': string, t': string, b': string)
    requires IsTrimmed(s, a, t, b) && IsTrimmed(s, a', t', b')
    ensures t == t'
  {
    TrimmedAt(s, a, t, b);
    TrimmedAt(s, a', t', b');
    assert t != "" ==> |a| == |a'| && |a| + |t| == |a'| + |t'|;
  }

  /** What is before the cut has no separator, and cutting loses nothing. */
  lemma {:induction false} CutClean(s: string, sep: char)
    ensures sep !in Cut(s, sep)[0]
    ensures |Cut(s, sep)| == 2 ==> s == Cut(s, sep)[0] + [sep] + Cut(s, sep)[1]
  {
    if s != "" && s[0] != sep {
      CutClean(s[1..], sep);
      assert s == [s[0]] + s[1..];
    } else if s != "" {
      assert s == "" + [sep] + s[1..];
    }
  }
}
