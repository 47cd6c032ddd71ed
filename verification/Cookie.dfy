/** Reading the refresh token from a request: the cookie header (section 4.2.1 of RFC 6265) and the
    places the server looks in. */
module Cookie {
  import opened Prelude
  import opened Strings
  import Base64Url
  import RefreshTokens

  datatype Pair = Pair(name: string, value: string)

  // ----- one header

  /** The value that a part of the header gives to `name`, if it is about that name. */
  function ValueIn(part: string, name: string): Option<string> {
    var kv := Cut(TrimSpace(part), '=');
    if |kv| == 2 && kv[0] == name then Some(kv[1]) else None
  }

  /** The first value that the parts give to `name`. */
  function FirstIn(parts: seq<string>, name: string): string {
    if parts == [] then ""
    else match ValueIn(parts[0], name)
      case Some(v) => v
      case None => FirstIn(parts[1..], name)
  }

  lemma {:induction false} FirstInAt(parts: seq<string>, name: string, n: nat)
    requires n <= |parts| && forall i :: 0 <= i < n ==> ValueIn(parts[i], name) == None
    ensures FirstIn(parts, name) == FirstIn(parts[n..], name)
  {
    if n == 0 {
      assert parts[n..] == parts;
    } else {
      FirstInAt(parts[1..], name, n - 1);
      assert parts[1..][n - 1..] == parts[n..];
    }
  }

  method ParseCookie(header: string, name: string) returns (value: string)
    ensures value == FirstIn(Split(header, ';'), name)
  {
    var parts := Split(header, ';');
    for i := 0 to |parts|
      invariant forall j :: 0 <= j < i ==> ValueIn(parts[j], name) == None
    {
      var kv := Cut(TrimSpace(parts[i]), '=');
      if |kv| == 2 && kv[0] == name {
        FirstInAt(parts, name, i);
        return kv[1];
      }
    }
    FirstInAt(parts, name, |parts|);
    return "";
  }

  // ----- what clients send

  function Text(c: Pair): string {
    c.name + "=" + c.value
  }

  function Texts(cookies: seq<Pair>): seq<string> {
    seq(|cookies|, i requires 0 <= i < |cookies| => Text(cookies[i]))
  }

  /** What section 4.1.1 of RFC 6265 grants of names and values, and more than is needed of it: names
      without '=' and ';' that do not begin with a space, values without ';' that do not end with
      one. */
  predicate WellFormed(c: Pair) {
    '=' !in c.name && ';' !in c.name && ';' !in c.value
    && (c.name != "" ==> !IsSpace(c.name[0])) && (c.value != "" ==> !IsSpace(c.value[|c.value| - 1]))
  }

  function FirstValue(cookies: seq<Pair>, name: string): string {
    if cookies == [] then "" else if cookies[0].name == name then cookies[0].value else FirstValue(cookies[1..], name)
  }

  lemma TextValue(c: Pair, name: string)
    requires WellFormed(c)
    ensures ValueIn(Text(c), name) == ValueIn(" " + Text(c), name) == if c.name == name then Some(c.value) else None
  {
    var t := Text(c);
    assert t[|c.name|] == '=';
    assert t[0] == if c.name == "" then '=' else c.name[0];
    assert t[|t| - 1] == if c.value == "" then '=' else c.value[|c.value| - 1];
    assert (" " + t)[1..] == t;
    CutJoined(c.name, c.value, '=');
  }

  lemma SplitTail(cookies: seq<Pair>)
    requires cookies != [] && forall i :: 0 <= i < |cookies| ==> WellFormed(cookies[i])
    ensures Split(Join(Texts(cookies), "; "), ';')
            == [Text(cookies[0])] + (if |cookies| == 1 then [] else Split(" " + Join(Texts(cookies[1..]), "; "), ';'))
  {
    var t := Text(cookies[0]);
    assert ';' !in t;
    assert Texts(cookies)[1..] == Texts(cookies[1..]);
    if |cookies| == 1 {
      SplitFirst(t, "", ';');
    } else {
      var rest := Join(Texts(cookies[1..]), "; ");
      assert t + "; " + rest == t + [';'] + (" " + rest);
      SplitFirst(t, " " + rest, ';');
    }
  }

  lemma SplitSpaced(cookies: seq<Pair>)
    requires cookies != [] && forall i :: 0 <= i < |cookies| ==> WellFormed(cookies[i])
    ensures Split(" " + Join(Texts(cookies), "; "), ';')
            == [" " + Text(cookies[0])] + Split(Join(Texts(cookies), "; "), ';')[1..]
  {
    var s := Join(Texts(cookies), "; ");
    SplitTail(cookies);
    assert (" " + s)[1..] == s;
  }

  lemma {:induction false} FirstInSpaced(cookies: seq<Pair>, name: string)
    requires cookies != [] && forall i :: 0 <= i < |cookies| ==> WellFormed(cookies[i])
    ensures FirstIn(Split(Join(Texts(cookies), "; "), ';'), name) == FirstValue(cookies, name)
    ensures FirstIn(Split(" " + Join(Texts(cookies), "; "), ';'), name) == FirstValue(cookies, name)
  {
    SplitTail(cookies);
    SplitSpaced(cookies);
    TextValue(cookies[0], name);
    if |cookies| > 1 {
      FirstInSpaced(cookies[1..], name);
    }
  }

  /** For every list of well-formed pairs joined by "; ", the parser's answer is the first value stored
      under the name, and "" when the name is absent. */
  lemma FirstStored(cookies: seq<Pair>, name: string)
    requires forall i :: 0 <= i < |cookies| ==> WellFormed(cookies[i])
    ensures FirstIn(Split(Join(Texts(cookies), "; "), ';'), name) == FirstValue(cookies, name)
  {
    if cookies != [] {
      FirstInSpaced(cookies, name);
    }
  }

  // ----- the places the server looks in

  /** Incoming metadata; `None` when the request has none. */
  datatype Metadata = Metadata(gatewayCookies: seq<string>, cookies: seq<string>, refreshHeaders: seq<string>)

  /** The first header that gives `name` a value that is not empty. */
  function FirstNonEmpty(headers: seq<string>, name: string): string {
    if headers == [] then ""
    else
      var v := FirstIn(Split(headers[0], ';'), name);
      if v != "" then v else FirstNonEmpty(headers[1..], name)
  }

  function RefreshFrom(md: Option<Metadata>, name: string): string {
    if md.None? then ""
    else
      var m := md.value;
      var forwarded := FirstNonEmpty(m.gatewayCookies, name);
      var direct := FirstNonEmpty(m.cookies, name);
      if forwarded != "" then forwarded
      else if direct != "" then direct
      else if m.refreshHeaders != [] then m.refreshHeaders[0]
      else ""
  }

  method SearchHeaders(headers: seq<string>, name: string) returns (raw: string)
    ensures raw == FirstNonEmpty(headers, name)
  {
    for i := 0 to |headers|
      invariant FirstNonEmpty(headers, name) == FirstNonEmpty(headers[i..], name)
    {
      raw := ParseCookie(headers[i], name);
      if raw != "" {
        return raw;
      }
      assert headers[i..][1..] == headers[i + 1..];
    }
    return "";
  }

  method GetRefreshFromCtx(md: Option<Metadata>, name: string) returns (raw: string)
    ensures raw == RefreshFrom(md, name)
  {
    if md.Some? {
      raw := SearchHeaders(md.value.gatewayCookies, name);
      if raw != "" {
        return raw;
      }
      raw := SearchHeaders(md.value.cookies, name);
      if raw != "" {
        return raw;
      }
      if md.value.refreshHeaders != [] && md.value.refreshHeaders[0] != "" {
        return md.value.refreshHeaders[0];
      }
    }
    return "";
  }

  /** A part of a header is about a name exactly if, white space around it aside, it is the name, '=' and
      the value; nothing is about a name that has '=' in it. */
  lemma ValueInIff(part: string, name: string, v: string)
    ensures ValueIn(part, name) == Some(v) <==> '=' !in name && TrimSpace(part) == name + "=" + v
  {
    var t := TrimSpace(part);
    if ValueIn(part, name) == Some(v) {
      CutClean(t, '=');
    }
    if '=' !in name && t == name + "=" + v {
      CutJoined(name, v, '=');
    }
  }

  /** The value of a header is that of its first part about the name, and "" if no part is. */
  lemma {:induction false} FirstInIff(parts: seq<string>, name: string, v: string)
    ensures FirstIn(parts, name) == v <==>
              || (v == "" && forall i :: 0 <= i < |parts| ==> ValueIn(parts[i], name) == None)
              || exists i :: 0 <= i < |parts| && FirstAbout(parts, name, i) && ValueIn(parts[i], name) == Some(v)
  {
    if parts != [] {
      FirstInIff(parts[1..], name, v);
      if ValueIn(parts[0], name) == None {
        FirstAboutTail(parts, name, v);
      } else {
        assert FirstAbout(parts, name, 0);
      }
    }
  }

  ghost predicate FirstAbout(parts: seq<string>, name: string, i: nat) {
    i < |parts| && ValueIn(parts[i], name).Some? && forall j :: 0 <= j < i ==> ValueIn(parts[j], name) == None
  }

  lemma FirstAboutTail(parts: seq<string>, name: string, v: string)
    requires parts != [] && ValueIn(parts[0], name) == None
    ensures (exists i :: 0 <= i < |parts| && FirstAbout(parts, name, i) && ValueIn(parts[i], name) == Some(v)) <==>
            (exists i :: 0 <= i < |parts| - 1 && FirstAbout(parts[1..], name, i)
                         && ValueIn(parts[1..][i], name) == Some(v))
    ensures (forall i :: 0 <= i < |parts| ==> ValueIn(parts[i], name) == None) <==>
            (forall i :: 0 <= i < |parts[1..]| ==> ValueIn(parts[1..][i], name) == None)
  {
    forall i | 0 <= i < |parts| && FirstAbout(parts, name, i) && ValueIn(parts[i], name) == Some(v)
      ensures 0 <= i - 1 && FirstAbout(parts[1..], name, i - 1) && ValueIn(parts[1..][i - 1], name) == Some(v)
    {
      assert forall j :: 0 <= j < i - 1 ==> parts[1..][j] == parts[j + 1];
    }
    forall i | 0 <= i < |parts| - 1 && FirstAbout(parts[1..], name, i) && ValueIn(parts[1..][i], name) == Some(v)
      ensures FirstAbout(parts, name, i + 1) && ValueIn(parts[i + 1], name) == Some(v)
    {
      assert forall j :: 1 <= j < i + 1 ==> parts[j] == parts[1..][j - 1];
    }
    if forall i :: 0 <= i < |parts[1..]| ==> ValueIn(parts[1..][i], name) == None {
      assert forall i :: 1 <= i < |parts| ==> parts[i] == parts[1..][i - 1];
    }
  }

  /** The value a header gives to the name. */
  function HeaderValue(header: string, name: string): string {
    FirstIn(Split(header, ';'), name)
  }

  ghost predicate FirstHeader(headers: seq<string>, name: string, i: nat) {
    i < |headers| && HeaderValue(headers[i], name) != ""
    && forall j :: 0 <= j < i ==> HeaderValue(headers[j], name) == ""
  }

  ghost predicate NoHeader(headers: seq<string>, name: string) {
    forall i :: 0 <= i < |headers| ==> HeaderValue(headers[i], name) == ""
  }

  lemma {:induction false} FirstNonEmptyIs(headers: seq<string>, name: string)
    ensures FirstNonEmpty(headers, name) == "" <==> NoHeader(headers, name)
    ensures forall i: nat :: FirstHeader(headers, name, i) ==>
              FirstNonEmpty(headers, name) == HeaderValue(headers[i], name)
  {
    if headers != [] {
      FirstNonEmptyIs(headers[1..], name);
      forall i: nat | FirstHeader(headers, name, i)
        ensures FirstNonEmpty(headers, name) == HeaderValue(headers[i], name)
      {
        if i > 0 {
          assert forall j :: 0 <= j < i - 1 ==> headers[1..][j] == headers[j + 1];
          assert HeaderValue(headers[0], name) == "" && FirstHeader(headers[1..], name, i - 1);
        }
      }
      assert forall j :: 1 <= j < |headers| ==> headers[j] == headers[1..][j - 1];
    }
  }

  /** Where the refresh token comes from: the first forwarded header that gives the cookie a value; if
      none does, the first direct one; if none does either, the first x-refresh-token header; and
      nothing without any of them. */
  lemma RefreshFromWhere(m: Metadata, name: string, i: nat)
    ensures FirstHeader(m.gatewayCookies, name, i) ==>
              RefreshFrom(Some(m), name) == HeaderValue(m.gatewayCookies[i], name)
    ensures NoHeader(m.gatewayCookies, name) && FirstHeader(m.cookies, name, i) ==>
              RefreshFrom(Some(m), name) == HeaderValue(m.cookies[i], name)
    ensures NoHeader(m.gatewayCookies, name) && NoHeader(m.cookies, name) ==>
              RefreshFrom(Some(m), name) == if m.refreshHeaders == [] then "" else m.refreshHeaders[0]
    ensures RefreshFrom(None, name) == ""
  {
    FirstNonEmptyIs(m.gatewayCookies, name);
    FirstNonEmptyIs(m.cookies, name);
  }

  lemma TokenIsCookieValue(bytes: seq<Base64Url.Byte>, name: string)
    requires WellFormed(Pair(name, ""))
    ensures WellFormed(Pair(name, RefreshTokens.RawToken(bytes)))
  {
    var raw := RefreshTokens.RawToken(bytes);
    assert forall i :: 0 <= i < |raw| ==> Base64Url.ValueOf(raw[i]).Some?;
  }

  /** A refresh token that the server set as a cookie comes back from the client's cookie header as it
      was issued, through the gateway or directly, among any other cookies. */
  lemma TokenComesBack(before: seq<Pair>, bytes: seq<Base64Url.Byte>, after: seq<Pair>, name: string,
                       header: string, others: seq<string>, extra: seq<string>)
    requires WellFormed(Pair(name, "")) && bytes != []
    requires forall i :: 0 <= i < |before| ==> WellFormed(before[i]) && before[i].name != name
    requires forall i :: 0 <= i < |after| ==> WellFormed(after[i])
    requires header == Join(Texts(before + [Pair(name, RefreshTokens.RawToken(bytes))] + after), "; ")
    ensures RefreshFrom(Some(Metadata([header] + others, others, extra)), name) == RefreshTokens.RawToken(bytes)
    ensures RefreshFrom(Some(Metadata([], [header] + others, extra)), name) == RefreshTokens.RawToken(bytes)
  {
    var raw := RefreshTokens.RawToken(bytes);
    var all := before + [Pair(name, raw)] + after;
    TokenIsCookieValue(bytes, name);
    FirstStored(all, name);
    SkipOthers(before, Pair(name, raw), after);
    assert raw != "";
  }

  lemma {:induction false} SkipOthers(before: seq<Pair>, c: Pair, after: seq<Pair>)
    requires forall i :: 0 <= i < |before| ==> before[i].name != c.name
    ensures FirstValue(before + [c] + after, c.name) == c.value
  {
    var all := before + [c] + after;
    if before != [] {
      assert all[1..] == before[1..] + [c] + after;
      SkipOthers(before[1..], c, after);
    }
  }
}
