/** The access claims and their JSON text: what `json.Marshal` prints for them and how
    `json.Unmarshal` reads a flat object of strings, integers and literals. */
module Claims {
  import opened Prelude
  import opened Decimal

  datatype AccessClaims = AccessClaims(sub: string, iat: int, exp: int)

  datatype Value = VString(s: string) | VInt(n: int) | VBool(b: bool) | VNull

  type Member = (string, Value)

  /** Characters that `json.Marshal` copies as they are. */
  predicate Plain(s: string) {
    forall i :: 0 <= i < |s| ==> ' ' <= s[i] <= '~' && s[i] !in {'"', '\\', '<', '>', '&'}
  }

  // ----- printing

  function PrintValue(v: Value): string {
    match v
    case VString(s) => "\"" + s + "\""
    case VInt(n) => FormatInt(n)
    case VBool(b) => if b then "true" else "false"
    case VNull => "null"
  }

  function PrintMember(m: Member): string {
    "\"" + m.0 + "\":" + PrintValue(m.1)
  }

  function PrintMembers(ms: seq<Member>): string {
    if ms == [] then "}"
    else if |ms| == 1 then PrintMember(ms[0]) + "}"
    else PrintMember(ms[0]) + "," + PrintMembers(ms[1..])
  }

  function Fields(c: AccessClaims): seq<Member> {
    [("sub", VString(c.sub)), ("iat", VInt(c.iat)), ("exp", VInt(c.exp))]
  }

  function Marshal(c: AccessClaims): string {
    "{" + PrintMembers(Fields(c))
  }

  // ----- reading

  function SkipSpace(s: string): (r: string)
    ensures |r| <= |s|
  {
    if s != "" && Blank(s[0]) then SkipSpace(s[1..]) else s
  }

  /** The content of a string and what follows it; `s` begins after the opening quote. */
  function ScanString(s: string): (r: Option<(string, string)>)
    ensures r.Some? ==> |r.value.1| < |s|
  {
    if s == "" || s[0] == '\\' || s[0] < ' ' then None
    else if s[0] == '"' then Some(("", s[1..]))
    else
      match ScanString(s[1..])
      case None => None
      case Some((x, rest)) => Some(([s[0]] + x, rest))
  }

  predicate NumberChar(c: char) {
    IsDigit(c) || c in {'-', '+', '.', 'e', 'E'}
  }

  function NumberLength(s: string): (n: nat)
    ensures n <= |s|
  {
    if s != "" && NumberChar(s[0]) then 1 + NumberLength(s[1..]) else 0
  }

  /** An integer literal: no leading zero, no fraction, no exponent. */
  function ParseNumber(s: string): Option<int> {
    var body := if s != "" && s[0] == '-' then s[1..] else s;
    if body == "" || !AllDigits(body) || (|body| > 1 && body[0] == '0') then None
    else
      var magnitude: int := Decimal.Value(body);
      Some(if s[0] == '-' then -magnitude else magnitude)
  }

  function ScanValue(s: string): (r: Option<(Value, string)>)
    ensures r.Some? ==> |r.value.1| < |s|
  {
    if s == "" then None
    else if s[0] == '"' then
      match ScanString(s[1..])
      case None => None
      case Some((x, rest)) => Some((VString(x), rest))
    else if "true" <= s then Some((VBool(true), s[4..]))
    else if "false" <= s then Some((VBool(false), s[5..]))
    else if "null" <= s then Some((VNull, s[4..]))
    else
      var n := NumberLength(s);
      if n == 0 then None
      else
        match ParseNumber(s[..n])
        case None => None
        case Some(v) => Some((VInt(v), s[n..]))
  }

  /** A key, a colon and a value; what follows is returned without leading space. */
  function ScanMember(s: string): (r: Option<(Member, string)>)
    ensures r.Some? ==> |r.value.1| < |s|
  {
    var key := SkipSpace(s);
    if key == "" || key[0] != '"' then None
    else
      match ScanString(key[1..])
      case None => None
      case Some((k, afterKey)) =>
        var colon := SkipSpace(afterKey);
        if colon == "" || colon[0] != ':' then None
        else
          match ScanValue(SkipSpace(colon[1..]))
          case None => None
          case Some((v, afterValue)) => Some(((k, v), SkipSpace(afterValue)))
  }

  /** The members of an object up to the end of the text; `s` begins before a key. */
  function ScanMembers(s: string): Option<seq<Member>>
    decreases |s|
  {
    match ScanMember(s)
    case None => None
    case Some((m, next)) =>
      if next == "" then None
      else if next[0] == '}' then (if SkipSpace(next[1..]) == "" then Some([m]) else None)
      else if next[0] != ',' then None
      else
        match ScanMembers(next[1..])
        case None => None
        case Some(ms) => Some([m] + ms)
  }

  function ScanObject(s: string): Option<seq<Member>> {
    var open := SkipSpace(s);
    if open == "" || open[0] != '{' then None
    else
      var first := SkipSpace(open[1..]);
      if first != "" && first[0] == '}' then (if SkipSpace(first[1..]) == "" then Some([]) else None)
      else ScanMembers(open[1..])
  }

  function Lower(c: char): char {
    if 'A' <= c <= 'Z' then (c as int + 32) as char else c
  }

  /** Keys match regardless of case. */
  predicate SameKey(a: string, b: string) {
    |a| == |b| && forall i :: 0 <= i < |a| ==> Lower(a[i]) == Lower(b[i])
  }

  /** Later members override earlier ones, null changes nothing, unknown keys are ignored. */
  function Assign(c: AccessClaims, m: Member): Option<AccessClaims> {
    if m.1.VNull? then Some(c)
    else if SameKey(m.0, "sub") then (if m.1.VString? then Some(c.(sub := m.1.s)) else None)
    else if SameKey(m.0, "iat") then (if m.1.VInt? && IsInt64(m.1.n) then Some(c.(iat := m.1.n)) else None)
    else if SameKey(m.0, "exp") then (if m.1.VInt? && IsInt64(m.1.n) then Some(c.(exp := m.1.n)) else None)
    else Some(c)
  }

  function AssignAll(ms: seq<Member>): Option<AccessClaims> {
    if ms == [] then Some(AccessClaims("", 0, 0))
    else
      match AssignAll(ms[..|ms| - 1])
      case None => None
      case Some(c) => Assign(c, ms[|ms| - 1])
  }

  function Unmarshal(s: string): Option<AccessClaims> {
    match ScanObject(s)
    case None => None
    case Some(ms) => AssignAll(ms)
  }

  // ----- what is printed is read back

  lemma {:induction false} ScanPlainString(x: string, rest: string)
    requires Plain(x)
    ensures ScanString(x + "\"" + rest) == Some((x, rest))
  {
    var s := x + "\"" + rest;
    if x == "" {
      assert s[1..] == rest;
    } else {
      ScanPlainString(x[1..], rest);
      assert s[1..] == x[1..] + "\"" + rest;
      assert [x[0]] + x[1..] == x;
    }
  }

  lemma {:induction false} NumberEnds(x: string, rest: string)
    requires forall i :: 0 <= i < |x| ==> NumberChar(x[i])
    requires rest != "" && !NumberChar(rest[0])
    ensures NumberLength(x + rest) == |x|
  {
    if x == "" {
      assert x + rest == rest;
    } else {
      NumberEnds(x[1..], rest);
      assert (x + rest)[1..] == x[1..] + rest;
    }
  }

  lemma {:induction false} NoLeadingZero(n: nat)
    requires n > 0
    ensures Digits(n)[0] != '0'
  {
    if n >= 10 {
      NoLeadingZero(n / 10);
      assert Digits(n)[0] == Digits(n / 10)[0];
    }
  }

  lemma ParsePrinted(n: int)
    ensures ParseNumber(FormatInt(n)) == Some(n)
  {
    var m := if n < 0 then -n else n;
    ValueOfDigits(m);
    if m > 0 {
      NoLeadingZero(m);
    }
    if n < 0 {
      assert FormatInt(n)[1..] == Digits(m);
    } else {
      assert IsDigit(Digits(m)[0]);
    }
  }

  predicate Printable(v: Value) {
    v.VString? ==> Plain(v.s)
  }

  lemma ScanText(x: string, rest: string)
    requires Plain(x)
    ensures ScanValue("\"" + x + "\"" + rest) == Some((VString(x), rest))
  {
    var s := "\"" + x + "\"" + rest;
    assert s[1..] == x + "\"" + rest;
    ScanPlainString(x, rest);
  }

  lemma ScanNumber(t: string, n: int, rest: string)
    requires t != "" && (forall i :: 0 <= i < |t| ==> IsDigit(t[i]) || t[i] == '-') && ParseNumber(t) == Some(n)
    requires rest != "" && !NumberChar(rest[0])
    ensures ScanValue(t + rest) == Some((VInt(n), rest))
  {
    var s := t + rest;
    NumberEnds(t, rest);
    assert s[0] == t[0];
    assert s[..|t|] == t && s[|t|..] == rest;
  }

  lemma ScanWord(b: bool, rest: string)
    ensures ScanValue("true" + rest) == Some((VBool(true), rest))
    ensures ScanValue("false" + rest) == Some((VBool(false), rest))
    ensures ScanValue("null" + rest) == Some((VNull, rest))
  {
    assert ("true" + rest)[4..] == rest && ("null" + rest)[4..] == rest && ("false" + rest)[5..] == rest;
    assert ("true" + rest)[0] == 't' && ("null" + rest)[0] == 'n' && ("false" + rest)[0] == 'f';
  }

  lemma ScanPrintedValue(v: Value, rest: string)
    requires Printable(v) && rest != "" && rest[0] in {',', '}'}
    ensures ScanValue(PrintValue(v) + rest) == Some((v, rest))
  {
    match v
    case VString(x) => ScanText(x, rest);
    case VInt(n) =>
      FormatAlphabet(n);
      ParsePrinted(n);
      ScanNumber(FormatInt(n), n, rest);
    case VBool(b) => ScanWord(b, rest);
    case VNull => ScanWord(true, rest);
  }

  predicate Blank(c: char) {
    c in {' ', '\t', '\n', '\r'}
  }

  lemma PrintedStart(v: Value)
    ensures PrintValue(v) != "" && !Blank(PrintValue(v)[0])
  {
    if v.VInt? {
      FormatAlphabet(v.n);
    }
  }

  predicate PrintableMember(m: Member) {
    Plain(m.0) && Printable(m.1)
  }

  lemma ScanMemberParts(s: string, key: string, afterKey: string, afterColon: string, v: Value, rest: string)
    requires s != "" && s[0] == '"' && ScanString(s[1..]) == Some((key, afterKey))
    requires afterKey != "" && afterKey[0] == ':' && afterKey[1..] == afterColon
    requires afterColon != "" && !Blank(afterColon[0]) && ScanValue(afterColon) == Some((v, rest))
    requires rest != "" && !Blank(rest[0])
    ensures ScanMember(s) == Some(((key, v), rest))
  {
  }

  lemma ScanMemberText(key: string, text: string, v: Value, rest: string)
    requires Plain(key) && text != "" && !Blank(text[0]) && rest != "" && !Blank(rest[0])
    requires ScanValue(text + rest) == Some((v, rest))
    ensures ScanMember("\"" + key + "\":" + text + rest) == Some(((key, v), rest))
  {
    var tail := text + rest;
    var afterKey := ":" + tail;
    var s := "\"" + (key + "\"" + afterKey);
    assert "\"" + key + "\":" + text + rest == s;
    ScanPlainString(key, afterKey);
    assert s[1..] == key + "\"" + afterKey && afterKey[1..] == tail && tail[0] == text[0];
    ScanMemberParts(s, key, afterKey, tail, v, rest);
  }

  /** One printed member, followed by the rest of the object. */
  lemma ScanPrintedMember(m: Member, rest: string)
    requires PrintableMember(m) && rest != "" && rest[0] in {',', '}'}
    ensures ScanMember(PrintMember(m) + rest) == Some((m, rest))
  {
    ScanPrintedValue(m.1, rest);
    PrintedStart(m.1);
    ScanMemberText(m.0, PrintValue(m.1), m.1, rest);
  }

  /** After the closing brace there may be white space only. */
  lemma LastMember(s: string, m: Member, tail: string)
    requires ScanMember(s) == Some((m, ['}'] + tail))
    ensures ScanMembers(s) == if SkipSpace(tail) == "" then Some([m]) else None
  {
    assert (['}'] + tail)[1..] == tail;
  }

  lemma NextMember(s: string, m: Member, next: string, tail: string, ms: seq<Member>)
    requires ScanMember(s) == Some((m, next)) && next == [','] + tail
    requires ScanMembers(tail) == Some(ms)
    ensures ScanMembers(s) == Some([m] + ms)
  {
    assert next[1..] == tail;
  }

  lemma PrintCons(ms: seq<Member>)
    requires |ms| > 1
    ensures PrintMembers(ms) == PrintMember(ms[0]) + ([','] + PrintMembers(ms[1..]))
  {
  }

  lemma {:induction false} ScanPrintedMembers(ms: seq<Member>)
    requires ms != [] && forall i :: 0 <= i < |ms| ==> PrintableMember(ms[i])
    ensures ScanMembers(PrintMembers(ms)) == Some(ms)
  {
    var m, tail, end := ms[0], ms[1..], ['}'];
    if tail == [] {
      ScanPrintedMember(m, end);
      assert end == ['}'] + "";
      LastMember(PrintMember(m) + end, m, "");
      assert ms == [m];
    } else {
      var rest := PrintMembers(tail);
      PrintCons(ms);
      ScanPrintedMembers(tail);
      ScanPrintedMember(m, [','] + rest);
      NextMember(PrintMembers(ms), m, [','] + rest, rest, tail);
      assert [m] + tail == ms;
    }
  }

  lemma AssignFields(c: AccessClaims)
    ensures AssignAll(Fields(c)) == if IsInt64(c.iat) && IsInt64(c.exp) then Some(c) else None
  {
    var fs := Fields(c);
    assert Lower("iat"[0]) != Lower("sub"[0]) && Lower("exp"[0]) != Lower("sub"[0]);
    assert Lower("exp"[0]) != Lower("iat"[0]);
    assert fs[..2][..1] == fs[..1] && fs[..1][..0] == [];
    assert AssignAll(fs[..1]) == Some(AccessClaims(c.sub, 0, 0));
    assert AssignAll(fs[..2]) == if IsInt64(c.iat) then Some(AccessClaims(c.sub, c.iat, 0)) else None;
  }

  lemma PrintedMembersStart(ms: seq<Member>)
    requires ms != []
    ensures PrintMembers(ms) != "" && PrintMembers(ms)[0] == '"'
  {
    assert PrintMember(ms[0])[0] == '"';
  }

  lemma ScanObjectText(text: string, ms: seq<Member>)
    requires text != "" && text[0] == '"' && ScanMembers(text) == Some(ms)
    ensures ScanObject("{" + text) == Some(ms)
  {
    var s := "{" + text;
    assert s[0] == '{' && s[1..] == text;
    assert SkipSpace(s) == s && SkipSpace(text) == text;
  }

  /** Claims survive the round trip exactly when their times fit 64 bits. */
  lemma UnmarshalMarshalled(c: AccessClaims)
    requires Plain(c.sub)
    ensures Unmarshal(Marshal(c)) == if IsInt64(c.iat) && IsInt64(c.exp) then Some(c) else None
  {
    ScanPrintedMembers(Fields(c));
    PrintedMembersStart(Fields(c));
    ScanObjectText(PrintMembers(Fields(c)), Fields(c));
    AssignFields(c);
  }

  // ----- the text and the reading of it in detail

  lemma ThreeMembers(a: Member, b: Member, c: Member)
    ensures PrintMembers([a, b, c]) == PrintMember(a) + "," + PrintMember(b) + "," + PrintMember(c) + "}"
  {
    var last, middle := PrintMember(c) + "}", PrintMember(b) + "," + (PrintMember(c) + "}");
    assert [a, b, c][1..] == [b, c] && [b, c][1..] == [c];
    assert PrintMembers([c]) == last && PrintMembers([b, c]) == middle;
    assert PrintMembers([a, b, c]) == PrintMember(a) + "," + middle;
  }

  lemma NamedMember(name: string, v: Value)
    ensures PrintMember((name, v)) == "\"" + name + "\":" + PrintValue(v)
  {
  }

  /** The text of claims, with the names of the standard. */
  lemma MarshalText(c: AccessClaims)
    ensures Marshal(c) == "{" + (("\"" + "sub" + "\":" + ("\"" + c.sub + "\"")) + ","
                                 + ("\"" + "iat" + "\":" + FormatInt(c.iat)) + ","
                                 + ("\"" + "exp" + "\":" + FormatInt(c.exp)) + "}")
  {
    var fs := Fields(c);
    NamedMember("sub", fs[0].1);
    NamedMember("iat", fs[1].1);
    NamedMember("exp", fs[2].1);
    ThreeMembers(fs[0], fs[1], fs[2]);
  }

  /** The last value given to a name, where null gives none; letters match in either case. */
  function LastOf(ms: seq<Member>, name: string): Option<Value> {
    if ms == [] then None
    else
      var n := |ms| - 1;
      if SameKey(ms[n].0, name) && ms[n].1 != VNull then Some(ms[n].1) else LastOf(ms[..n], name)
  }

  predicate Fits(m: Member) {
    && (SameKey(m.0, "sub") ==> m.1.VString? || m.1 == VNull)
    && (SameKey(m.0, "iat") || SameKey(m.0, "exp") ==>
          m.1 == VNull || (m.1.VInt? && -0x8000_0000_0000_0000 <= m.1.n < 0x8000_0000_0000_0000))
  }

  lemma OneName(key: string)
    ensures SameKey(key, "sub") ==> !SameKey(key, "iat") && !SameKey(key, "exp")
    ensures SameKey(key, "iat") ==> !SameKey(key, "exp")
  {
    assert "sub"[0] == 's' && "iat"[0] == 'i' && "exp"[0] == 'e';
  }

  /** What the members of an object come to: each of a known name must be of its type and range, and
      each claim is the last value given for it, or zero. */
  lemma {:induction false} AssignIff(ms: seq<Member>, c: AccessClaims)
    ensures AssignAll(ms) == Some(c) <==>
              && (forall i :: 0 <= i < |ms| ==> Fits(ms[i]))
              && VString(c.sub) == ValueOr(LastOf(ms, "sub"), VString(""))
              && VInt(c.iat) == ValueOr(LastOf(ms, "iat"), VInt(0))
              && VInt(c.exp) == ValueOr(LastOf(ms, "exp"), VInt(0))
  {
    if ms != [] {
      var n := |ms| - 1;
      var rest, m := ms[..n], ms[n];
      assert (forall i :: 0 <= i < |ms| ==> Fits(ms[i])) <==> (forall i :: 0 <= i < n ==> Fits(rest[i])) && Fits(m);
      OneName(m.0);
      AssignFits(rest);
      if AssignAll(rest).Some? {
        AssignIff(rest, AssignAll(rest).value);
      }
    }
  }

  function ValueOr(v: Option<Value>, zero: Value): Value {
    match v
    case Some(x) => x
    case None => zero
  }

  lemma {:induction false} AssignFits(ms: seq<Member>)
    ensures AssignAll(ms).Some? <==> forall i :: 0 <= i < |ms| ==> Fits(ms[i])
  {
    if ms != [] {
      var n := |ms| - 1;
      AssignFits(ms[..n]);
      OneName(ms[n].0);
      assert (forall i :: 0 <= i < |ms| ==> Fits(ms[i])) <==>
             (forall i :: 0 <= i < n ==> Fits(ms[..n][i])) && Fits(ms[n]);
    }
  }

  /** Two keys are the same if they differ in the case of ASCII letters only. */
  lemma SameKeyIff(a: string, b: string)
    ensures SameKey(a, b) <==>
              |a| == |b| && forall i :: 0 <= i < |a| ==>
                a[i] == b[i] || ('a' <= a[i] <= 'z' && b[i] as int == a[i] as int - 32)
                || ('a' <= b[i] <= 'z' && a[i] as int == b[i] as int - 32)
  {
  }

  /** Reading any printed object comes to what its members come to. */
  lemma UnmarshalPrinted(ms: seq<Member>)
    requires ms != [] && forall i :: 0 <= i < |ms| ==> PrintableMember(ms[i])
    ensures Unmarshal("{" + PrintMembers(ms)) == AssignAll(ms)
  {
    ScanPrintedMembers(ms);
    PrintedMembersStart(ms);
    ScanObjectText(PrintMembers(ms), ms);
  }

  /** Four characters are skipped between tokens, no other. */
  lemma BlankSkipped(c: char, s: string)
    ensures c in {' ', '\t', '\n', '\r'} ==> SkipSpace([c] + s) == SkipSpace(s)
    ensures c !in {' ', '\t', '\n', '\r'} ==> SkipSpace([c] + s) == [c] + s
    ensures SkipSpace("") == ""
  {
    assert ([c] + s)[1..] == s;
  }

  /** A number is digits without a leading zero, after a minus sign if it is negative. */
  lemma NumberIff(s: string, v: int)
    ensures ParseNumber(s) == Some(v) <==>
              exists sign, digits :: Denotes(s, sign, digits, v) && sign != "+" && (|digits| == 1 || digits[0] != '0')
  {
    if ParseNumber(s) == Some(v) {
      if s[0] == '-' {
        assert s == "-" + s[1..];
        assert Denotes(s, "-", s[1..], v);
      } else {
        assert Denotes(s, "", s, v);
      }
    }
    forall sign, digits | Denotes(s, sign, digits, v) && sign != "+" && (|digits| == 1 || digits[0] != '0')
      ensures ParseNumber(s) == Some(v)
    {
      NumberDenoted(sign, digits, v);
    }
  }

  lemma NumberDenoted(sign: string, digits: string, v: int)
    requires Denotes(sign + digits, sign, digits, v) && sign != "+" && (|digits| == 1 || digits[0] != '0')
    ensures ParseNumber(sign + digits) == Some(v)
  {
    if sign == "" {
      assert sign + digits == digits;
    } else {
      assert sign == "-" && (sign + digits)[1..] == digits;
    }
  }

  /** A string ends at the first quote; a backslash or a control character before that is refused. */
  lemma {:induction false} StringStops(x: string, c: char, rest: string)
    requires Plain(x) && (c == '\\' || c < ' ')
    ensures ScanString(x + [c] + rest) == None && ScanString(x) == None
  {
    var s := x + [c] + rest;
    if x != "" {
      StringStops(x[1..], c, rest);
      assert s[1..] == x[1..] + [c] + rest;
    }
  }
}
