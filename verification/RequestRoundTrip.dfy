/** What a client sends, the grammar reads back: header names in any case, spaces around them, headers
    that are sent more than once. The request printer is one such client. */
module RequestRoundTrip {
  import opened Text
  import opened Http
  import opened ListGrammar
  import opened StreamParser

  // ------------------------------------------------------------ clean requests

  predicate CleanUri(uri: string) {
    uri != "" && forall k :: 0 <= k < |uri| ==> Ascii(uri[k]) && uri[k] != ' '
  }

  /** A header line as it is sent: spaces, a name, a colon, spaces, a value. */
  datatype Line = Line(indent: nat, name: string, gap: nat, value: string)

  function Spaces(n: nat): string {
    seq(n, _ => ' ')
  }

  function NamePart(l: Line): string {
    Spaces(l.indent) + l.name
  }

  /** The value as it stands in its line, up to the LF. */
  function ValuePart(l: Line): string {
    Spaces(l.gap) + l.value + "\r"
  }

  function LineText(l: Line): string {
    NamePart(l) + ":" + ValuePart(l) + "\n"
  }

  function LinesText(lines: seq<Line>): string {
    if lines == [] then "" else LinesText(lines[..|lines| - 1]) + LineText(lines[|lines| - 1])
  }

  /** A name, in any case, with no colon in it, that does not look like a blank line or begin with a
      space; a value that does not begin with a space and has no line break in it. */
  predicate GoodLine(l: Line) {
    && CleanName(l) && CleanValue(l.value)
  }

  predicate CleanName(l: Line) {
    && l.name != "" && l.name[0] != ' ' && !StartsWithBreak(NamePart(l))
    && forall k :: 0 <= k < |l.name| ==> Ascii(l.name[k]) && l.name[k] != ':'
  }

  predicate StartsWithBreak(s: string) {
    |s| >= 2 && s[0] == '\r' && s[1] == '\n'
  }

  predicate CleanValue(value: string) {
    && value != "" && value[0] != ' ' && NoLineBreak(value)
    && forall k :: 0 <= k < |value| ==> Ascii(value[k])
  }

  predicate NoLineBreak(s: string) {
    forall k :: 0 < k < |s| ==> !(s[k - 1] == '\r' && s[k] == '\n')
  }

  predicate GoodLines(lines: seq<Line>) {
    forall k :: 0 <= k < |lines| ==> GoodLine(lines[k])
  }

  // ------------------------------------------------------- the table lines lead to

  /** Line `k` is the first one with this name, whatever its case. */
  ghost predicate First(lines: seq<Line>, k: nat, name: string)
    requires k < |lines|
  {
    && SameButCase(lines[k].name, name)
    && forall j :: 0 <= j < k ==> !SameButCase(lines[j].name, name)
  }

  /** The value of the first line with this name. */
  ghost predicate FirstValue(lines: seq<Line>, name: string, value: string) {
    exists k :: 0 <= k < |lines| && First(lines, k, name) && value == lines[k].value
  }

  ghost predicate Kept(name: string, headers: Headers) {
    exists key :: key in headers && SameButCase(name, key)
  }

  /** The table of the lines: the names that occur, without capitals, each with the value of the first
      line it occurs in. */
  ghost predicate Gives(lines: seq<Line>, headers: Headers) {
    && (forall name :: name in headers ==> NoCapitals(name) && FirstValue(lines, name, headers[name]))
    && (forall k :: 0 <= k < |lines| ==> Kept(lines[k].name, headers))
  }

  function Stored(lines: seq<Line>): Headers {
    if lines == [] then map[]
    else
      var last := lines[|lines| - 1];
      Emplace(Stored(lines[..|lines| - 1]), ToLower(last.name), last.value)
  }

  lemma {:induction false} StoredHas(lines: seq<Line>, name: string)
    ensures name in Stored(lines) <==> exists k :: 0 <= k < |lines| && ToLower(lines[k].name) == name
  {
    hide ToLower;
    if lines != [] {
      var n := |lines| - 1;
      StoredHas(lines[..n], name);
      if k :| 0 <= k < n && ToLower(lines[k].name) == name {
        assert ToLower(lines[..n][k].name) == name;
      }
    }
  }

  lemma {:induction false} StoredFirst(lines: seq<Line>, name: string, k: nat)
    requires k < |lines| && ToLower(lines[k].name) == name
    requires forall j :: 0 <= j < k ==> ToLower(lines[j].name) != name
    ensures name in Stored(lines) && Stored(lines)[name] == lines[k].value
  {
    hide ToLower;
    var n := |lines| - 1;
    if k < n {
      StoredFirst(lines[..n], name, k);
    } else {
      StoredHas(lines[..n], name);
    }
  }

  lemma FirstIs(lines: seq<Line>, k: nat, name: string)
    requires k < |lines| && NoCapitals(name)
    ensures First(lines, k, name) <==>
            ToLower(lines[k].name) == name && forall j :: 0 <= j < k ==> ToLower(lines[j].name) != name
  {
    hide ToLower, SameButCase, NoCapitals;
    forall j | 0 <= j < |lines|
      ensures ToLower(lines[j].name) == name <==> SameButCase(lines[j].name, name)
    {
      ToLowerExactly(lines[j].name, name);
    }
  }

  lemma {:induction false} SomeFirst(lines: seq<Line>, name: string, n: nat) returns (k: nat)
    requires n < |lines| && ToLower(lines[n].name) == name
    ensures k < |lines| && ToLower(lines[k].name) == name && forall j :: 0 <= j < k ==> ToLower(lines[j].name) != name
    decreases n
  {
    if j :| 0 <= j < n && ToLower(lines[j].name) == name {
      k := SomeFirst(lines, name, j);
    } else {
      k := n;
    }
  }

  lemma StoredValue(lines: seq<Line>, name: string)
    requires name in Stored(lines)
    ensures NoCapitals(name) && FirstValue(lines, name, Stored(lines)[name])
  {
    hide ToLower, First, NoCapitals, SameButCase;
    StoredHas(lines, name);
    var n :| 0 <= n < |lines| && ToLower(lines[n].name) == name;
    ToLowerExactly(lines[n].name, name);
    var k := SomeFirst(lines, name, n);
    StoredFirst(lines, name, k);
    FirstIs(lines, k, name);
  }

  lemma StoredKeeps(lines: seq<Line>, k: nat)
    requires k < |lines|
    ensures Kept(lines[k].name, Stored(lines))
  {
    hide ToLower, NoCapitals, SameButCase;
    StoredHas(lines, ToLower(lines[k].name));
    ToLowerExactly(lines[k].name, ToLower(lines[k].name));
  }

  lemma StoredGives(lines: seq<Line>)
    ensures Gives(lines, Stored(lines))
  {
    hide FirstValue, Kept, NoCapitals;
    forall name | name in Stored(lines)
      ensures NoCapitals(name) && FirstValue(lines, name, Stored(lines)[name])
    {
      StoredValue(lines, name);
    }
    forall k | 0 <= k < |lines|
      ensures Kept(lines[k].name, Stored(lines))
    {
      StoredKeeps(lines, k);
    }
  }

  lemma ValueIsStored(lines: seq<Line>, name: string, value: string)
    requires NoCapitals(name) && FirstValue(lines, name, value)
    ensures name in Stored(lines) && value == Stored(lines)[name]
  {
    hide ToLower, First, NoCapitals, SameButCase;
    var k :| 0 <= k < |lines| && First(lines, k, name) && value == lines[k].value;
    FirstIs(lines, k, name);
    StoredFirst(lines, name, k);
  }

  lemma StoredIsKept(lines: seq<Line>, headers: Headers, name: string)
    requires Gives(lines, headers) && name in Stored(lines)
    ensures name in headers
  {
    hide ToLower, FirstValue, NoCapitals, SameButCase;
    StoredHas(lines, name);
    var k :| 0 <= k < |lines| && ToLower(lines[k].name) == name;
    var key :| key in headers && SameButCase(lines[k].name, key);
    ToLowerExactly(lines[k].name, key);
  }

  /** The lines give one table, the one that is stored. */
  lemma StoredExactly(lines: seq<Line>, headers: Headers)
    ensures Gives(lines, headers) <==> headers == Stored(lines)
  {
    hide Stored, FirstValue, Kept, NoCapitals;
    StoredGives(lines);
    if Gives(lines, headers) {
      forall name | name in headers
        ensures name in Stored(lines) && headers[name] == Stored(lines)[name]
      {
        ValueIsStored(lines, name, headers[name]);
      }
      forall name | name in Stored(lines)
        ensures name in headers
      {
        StoredIsKept(lines, headers, name);
      }
      assert headers.Keys == Stored(lines).Keys;
    }
  }

  // ------------------------------------------------------------- how a body is delimited

  /** The transfer coding lists the token `chunked`. */
  ghost predicate ListsChunked(headers: Headers) {
    "transfer-encoding" in headers && Lists(headers["transfer-encoding"], "chunked")
  }

  lemma ChunkedExactly(headers: Headers)
    ensures IsChunked(headers) <==> ListsChunked(headers)
  {
    if "transfer-encoding" in headers {
      ElementsExactly(headers["transfer-encoding"], "chunked");
    }
    hide Lists;
  }

  /** A number that begins the value, or a quoted one. */
  ghost predicate Declares(value: string, n: int) {
    Numeral(value, n, 10) || exists inner :: value == "\"" + inner + "\"" && Numeral(inner, n, 10)
  }

  lemma NumeralBegins(s: string, n: int)
    requires Numeral(s, n, 10)
    ensures s != "" && s[0] != '"'
  {
    hide Spells;
    var digits, rest :| SplitsAs(s, n, 10, digits, rest);
    if s == "-" + digits + rest {
      assert s[0] == '-';
    } else {
      ValueExactly(digits, n, 10);
      assert IsDigit(digits[0], 10) && s[0] == digits[0];
    }
  }

  lemma ParseNumberExactly(s: string, n: int)
    ensures ParseNumber(s) == Some(n) <==> Declares(s, n) && -0x8000_0000 <= n < 0x8000_0000
  {
    hide FromChars, Numeral;
    if |s| > 2 && s[0] == '"' && s[|s| - 1] == '"' {
      var inner := s[1..|s| - 1];
      assert s == "\"" + inner + "\"";
      FromCharsExactly(inner, n, 10);
      assert !Numeral(s, n, 10) by {
        if Numeral(s, n, 10) {
          NumeralBegins(s, n);
        }
      }
      assert forall other :: s == "\"" + other + "\"" ==> s[1..|s| - 1] == other;
    } else {
      FromCharsExactly(s, n, 10);
      if Declares(s, n) && !Numeral(s, n, 10) {
        var inner :| s == "\"" + inner + "\"" && Numeral(inner, n, 10);
        NumeralBegins(inner, n);
        assert false;
      }
    }
  }

  /** A body in one piece: its length is declared, or it is empty and no length is. */
  ghost predicate Delimited(m: Message) {
    && !ListsChunked(m.headers)
    && if m.body == "" then "content-length" !in m.headers
       else "content-length" in m.headers && Declares(m.headers["content-length"], |m.body|)
  }

  /** The request line and the header section stay within the limits; the final byte of each is free. */
  ghost predicate GoodHead(m: Message, lines: seq<Line>, lim: Limits) {
    && GoodRequestLine(m, lim) && GoodLines(lines) && Gives(lines, m.headers)
    && |LinesText(lines)| + 2 <= lim.headerBytes + 1
  }

  predicate GoodRequestLine(m: Message, lim: Limits) {
    Known(m.verb) && m.version != NoVersion && CleanUri(m.uri) && |RequestLine(m)| <= lim.requestLine + 1
  }

  predicate WithinBody(body: string, lim: Limits) {
    body == "" || |body| <= lim.bodySize
  }

  /** A request with its body in one piece, within the limits. */
  ghost predicate GoodRequest(m: Message, lines: seq<Line>, lim: Limits) {
    GoodHead(m, lines, lim) && Delimited(m) && WithinBody(m.body, lim)
  }

  function HeadText(m: Message, lines: seq<Line>): string {
    RequestLine(m) + LinesText(lines)
  }

  function RequestSent(m: Message, lines: seq<Line>): string {
    HeadText(m, lines) + (CRLF + m.body)
  }

  // ------------------------------------------------------------ reading a token

  lemma MethodStep(t: string, c: char, lim: Limits)
    requires |t| < 8 && Ascii(c) && c != ' '
    ensures Consume(InMethod(t), c, lim) == Silent(InMethod(t + [c]))
  {
    hide ParseMethod, VersionOf;
  }

  lemma {:induction false} MethodText(t: string, s: string, lim: Limits)
    requires |t| + |s| <= 8 && forall k :: 0 <= k < |s| ==> Ascii(s[k]) && s[k] != ' '
    ensures Run(InMethod(t), s, lim) == Silent(InMethod(t + s))
    decreases |s|
  {
    hide Consume;
    if s == "" {
      assert t + s == t;
    } else {
      MethodStep(t, s[0], lim);
      MethodText(t + [s[0]], s[1..], lim);
      assert (t + [s[0]]) + s[1..] == t + s;
    }
  }

  lemma {:induction false} UriText(verb: Method, count: nat, t: string, s: string, lim: Limits)
    requires count + |s| <= lim.requestLine && forall k :: 0 <= k < |s| ==> Ascii(s[k]) && s[k] != ' '
    ensures Run(InUri(verb, count, t), s, lim) == Silent(InUri(verb, count + |s|, t + s))
    decreases |s|
  {
    if s == "" {
      assert t + s == t;
    } else {
      UriText(verb, count + 1, t + [s[0]], s[1..], lim);
      assert (t + [s[0]]) + s[1..] == t + s;
    }
  }

  /** No line end behind a byte: a version word that is not complete. */
  predicate NoLineEnd(s: string) {
    forall k :: 1 < k < |s| ==> !(s[k - 1] == '\r' && s[k] == '\n')
  }

  lemma {:induction false} VersionText(verb: Method, uri: string, count: nat, t: string, s: string, lim: Limits)
    requires count + |s| <= lim.requestLine && NoLineEnd(t + s) && forall k :: 0 <= k < |s| ==> Ascii(s[k])
    ensures Run(InVersion(verb, uri, count, t), s, lim) == Silent(InVersion(verb, uri, count + |s|, t + s))
    decreases |s|
  {
    if s == "" {
      assert t + s == t;
    } else {
      assert (t + [s[0]]) + s[1..] == t + s;
      assert t != "" ==> (t + s)[|t| - 1] == t[|t| - 1] && (t + s)[|t|] == s[0];
      VersionText(verb, uri, count + 1, t + [s[0]], s[1..], lim);
    }
  }

  lemma {:induction false} NameText(head: Head, t: string, s: string, lim: Limits)
    requires head.bytes + |s| <= lim.headerBytes && !StartsWithBreak(t + s)
    requires forall k :: 0 <= k < |s| ==> Ascii(s[k]) && s[k] != ':'
    ensures Run(InHeaderName(head, t), s, lim)
            == Silent(InHeaderName(head.(bytes := head.bytes + |s|), t + s))
    decreases |s|
  {
    if s == "" {
      assert t + s == t;
    } else {
      assert (t + [s[0]]) + s[1..] == t + s;
      assert t == "\r" ==> (t + s)[0] == '\r' && (t + s)[1] == s[0];
      NameText(head.(bytes := head.bytes + 1), t + [s[0]], s[1..], lim);
    }
  }

  lemma {:induction false} ValueText(head: Head, indent: nat, name: string, t: string, s: string, lim: Limits)
    requires head.bytes + |s| <= lim.headerBytes && NoLineBreak(t + s)
    requires forall k :: 0 <= k < |s| ==> Ascii(s[k])
    ensures Run(InHeaderValue(head, indent, name, t), s, lim)
            == Silent(InHeaderValue(head.(bytes := head.bytes + |s|), indent, name, t + s))
    decreases |s|
  {
    if s == "" {
      assert t + s == t;
    } else {
      assert (t + [s[0]]) + s[1..] == t + s;
      assert t != "" ==> (t + s)[|t| - 1] == t[|t| - 1] && (t + s)[|t|] == s[0];
      ValueText(head.(bytes := head.bytes + 1), indent, name, t + [s[0]], s[1..], lim);
    }
  }

  lemma {:induction false} BodyText(head: Head, length: nat, t: string, s: string, lim: Limits)
    requires s != "" && |t| + |s| == length <= lim.bodySize
    ensures Run(InBody(head, length, t), s, lim) == Step(START, [Finished(head, t + s)])
    decreases |s|
  {
    if |s| == 1 {
      assert s[1..] == "" && t + [s[0]] == t + s;
    } else {
      assert (t + [s[0]]) + s[1..] == t + s;
      BodyText(head, length, t + [s[0]], s[1..], lim);
    }
  }

  // ---------------------------------------------------------- reading a request

  lemma VersionNames(v: Version)
    requires v != NoVersion
    ensures VersionOf(VersionName(v)) == v && |VersionName(v)| == 8
    ensures forall k :: 0 <= k < 8 ==> Ascii(VersionName(v)[k]) && VersionName(v)[k] != '\n'
  {
  }

  lemma MethodNames(m: Method)
    requires Known(m)
    ensures ParseMethod(MethodName(m)) == m && 0 < |MethodName(m)| <= 7 && VersionOf(MethodName(m)) == NoVersion
    ensures forall k :: 0 <= k < |MethodName(m)| ==> Ascii(MethodName(m)[k]) && MethodName(m)[k] != ' '
  {
  }

  lemma ReadMethod(m: Method, lim: Limits)
    requires Known(m)
    ensures Run(START, MethodName(m) + " ", lim) == Silent(InUri(m, |MethodName(m)| + 1, ""))
  {
    hide MethodName, ParseMethod, VersionOf;
    MethodNames(m);
    MethodText("", MethodName(m), lim);
    assert "" + MethodName(m) == MethodName(m);
    Then(START, MethodName(m), InMethod(MethodName(m)), " ", lim);
    OneByte(InMethod(MethodName(m)), ' ', lim);
  }

  lemma ReadUri(verb: Method, count: nat, uri: string, lim: Limits)
    requires CleanUri(uri) && count + |uri| <= lim.requestLine
    ensures Run(InUri(verb, count, ""), uri + " ", lim) == Silent(InVersion(verb, uri, count + |uri| + 1, ""))
  {
    UriText(verb, count, "", uri, lim);
    assert "" + uri == uri;
    Then(InUri(verb, count, ""), uri, InUri(verb, count + |uri|, uri), " ", lim);
    OneByte(InUri(verb, count + |uri|, uri), ' ', lim);
  }

  lemma ReadVersion(verb: Method, uri: string, count: nat, v: Version, lim: Limits)
    requires v != NoVersion && count + 9 <= lim.requestLine
    ensures Run(InVersion(verb, uri, count, ""), VersionName(v) + CRLF, lim)
            == Silent(InHeaderName(Head(v, verb, uri, map[], 0), ""))
  {
    hide VersionName, VersionOf;
    VersionNames(v);
    var text := VersionName(v) + "\r";
    VersionText(verb, uri, count, "", text, lim);
    assert "" + text == text;
    assert VersionName(v) + CRLF == text + "\n";
    var q := InVersion(verb, uri, count + |text|, text);
    Then(InVersion(verb, uri, count, ""), text, q, "\n", lim);
    assert Front(text) == VersionName(v);
    OneByte(q, '\n', lim);
  }

  lemma ReadRequestLine(m: Message, lim: Limits)
    requires Known(m.verb) && m.version != NoVersion && CleanUri(m.uri)
    requires |RequestLine(m)| <= lim.requestLine + 1
    ensures Run(START, RequestLine(m), lim)
            == Silent(InHeaderName(Head(m.version, m.verb, m.uri, map[], 0), ""))
  {
    hide MethodName, VersionName, Run, CleanUri;
    VersionNames(m.version);
    var name := MethodName(m.verb);
    var tail := VersionName(m.version) + CRLF;
    assert RequestLine(m) == (name + " ") + ((m.uri + " ") + tail);
    ReadMethod(m.verb, lim);
    var count := |name| + 1;
    Then(START, name + " ", InUri(m.verb, count, ""), (m.uri + " ") + tail, lim);
    ReadUri(m.verb, count, m.uri, lim);
    Then(InUri(m.verb, count, ""), m.uri + " ", InVersion(m.verb, m.uri, count + |m.uri| + 1, ""), tail, lim);
    ReadVersion(m.verb, m.uri, count + |m.uri| + 1, m.version, lim);
  }

  lemma SpacesDropped(n: nat, s: string)
    requires s == "" || s[0] != ' '
    ensures TrimLeft(Spaces(n) + s) == s
  {
    TrimLeftUnique(Spaces(n) + s, n);
  }

  lemma ColonByte(head: Head, l: Line, lim: Limits)
    requires l.name != "" && l.name[0] != ' '
    ensures Consume(InHeaderName(head, NamePart(l)), ':', lim)
            == Silent(InHeaderValue(head.(bytes := head.bytes + 1), l.indent, l.name, ""))
  {
    SpacesDropped(l.indent, l.name);
    hide TrimLeft;
  }

  lemma ReadName(head: Head, l: Line, lim: Limits)
    requires CleanName(l) && head.bytes + |NamePart(l)| <= lim.headerBytes
    ensures Run(InHeaderName(head, ""), NamePart(l) + ":", lim)
            == Silent(InHeaderValue(head.(bytes := head.bytes + |NamePart(l)| + 1), l.indent, l.name, ""))
  {
    hide Consume, Run;
    var name := NamePart(l);
    assert "" + name == name;
    NameText(head, "", name, lim);
    hide CleanName, NamePart;
    var q := InHeaderName(head.(bytes := head.bytes + |name|), name);
    ColonByte(q.head, l, lim);
    Then(InHeaderName(head, ""), name, q, ":", lim);
    OneByte(q, ':', lim);
  }

  lemma ValueByte(head: Head, indent: nat, l: Line, lim: Limits)
    requires l.value != "" && l.value[0] != ' '
    ensures Consume(InHeaderValue(head, indent, l.name, ValuePart(l)), '\n', lim)
            == Silent(InHeaderName(head.(bytes := head.bytes + 1,
                                         headers := Emplace(head.headers, ToLower(l.name), l.value)), ""))
  {
    hide ToLower, TrimLeft;
    var text := ValuePart(l);
    assert Front(text) == Spaces(l.gap) + l.value && text[|text| - 1] == '\r';
    SpacesDropped(l.gap, l.value);
  }

  lemma ValuePartAt(l: Line, k: nat)
    requires k < |ValuePart(l)|
    ensures |ValuePart(l)| == l.gap + |l.value| + 1
    ensures ValuePart(l)[k]
            == if k < l.gap then ' ' else if k < l.gap + |l.value| then l.value[k - l.gap] else '\r'
  {
  }

  lemma ValuePartClean(l: Line)
    requires CleanValue(l.value)
    ensures NoLineBreak(ValuePart(l)) && forall k :: 0 <= k < |ValuePart(l)| ==> Ascii(ValuePart(l)[k])
  {
    hide ValuePart;
    var text := ValuePart(l);
    forall k | 0 <= k < |text|
      ensures Ascii(text[k]) && (k > 0 ==> !(text[k - 1] == '\r' && text[k] == '\n'))
    {
      ValuePartAt(l, k);
      if k > 0 {
        ValuePartAt(l, k - 1);
      }
    }
  }

  lemma ReadValue(head: Head, indent: nat, l: Line, lim: Limits)
    requires CleanValue(l.value) && head.bytes + |ValuePart(l)| <= lim.headerBytes
    ensures Run(InHeaderValue(head, indent, l.name, ""), ValuePart(l) + "\n", lim)
            == Silent(InHeaderName(head.(bytes := head.bytes + |ValuePart(l)| + 1,
                                         headers := Emplace(head.headers, ToLower(l.name), l.value)), ""))
  {
    hide ToLower, NoLineBreak, Run, Consume, Emplace;
    var text := ValuePart(l);
    ValuePartClean(l);
    assert "" + text == text;
    ValueText(head, indent, l.name, "", text, lim);
    ValueByte(head.(bytes := head.bytes + |text|), indent, l, lim);
    hide ValuePart, CleanValue;
    var q := InHeaderValue(head.(bytes := head.bytes + |text|), indent, l.name, text);
    Then(InHeaderValue(head, indent, l.name, ""), text, q, "\n", lim);
    OneByte(q, '\n', lim);
  }

  lemma LineParts(l: Line)
    ensures LineText(l) == (NamePart(l) + ":") + (ValuePart(l) + "\n")
    ensures |LineText(l)| == |NamePart(l)| + |ValuePart(l)| + 2
  {
  }

  lemma ReadLine(head: Head, l: Line, lim: Limits)
    requires GoodLine(l) && head.bytes + |LineText(l)| <= lim.headerBytes + 1
    ensures Run(InHeaderName(head, ""), LineText(l), lim)
            == Silent(InHeaderName(head.(bytes := head.bytes + |LineText(l)|,
                                         headers := Emplace(head.headers, ToLower(l.name), l.value)), ""))
  {
    LineParts(l);
    hide CleanValue, CleanName, Run, LineText, ValuePart, NamePart, Emplace, ToLower;
    ReadName(head, l, lim);
    var h := head.(bytes := head.bytes + |NamePart(l)| + 1);
    Then(InHeaderName(head, ""), NamePart(l) + ":", InHeaderValue(h, l.indent, l.name, ""), ValuePart(l) + "\n", lim);
    ReadValue(h, l.indent, l, lim);
  }

  function HeadAt(m: Message, lines: seq<Line>): Head {
    Head(m.version, m.verb, m.uri, Stored(lines), |LinesText(lines)|)
  }

  /** The lines of a header section, with names in any case and repeated as they may be, lead to the
      table they give. */
  lemma {:induction false} ReadLines(m: Message, lines: seq<Line>, lim: Limits)
    requires GoodLines(lines) && (lines == [] || |LinesText(lines)| <= lim.headerBytes + 1)
    ensures Run(InHeaderName(HeadAt(m, []), ""), LinesText(lines), lim) == Silent(InHeaderName(HeadAt(m, lines), ""))
    ensures Gives(lines, Stored(lines))
    decreases |lines|
  {
    hide Run, GoodLine, LineText, Gives, Emplace, ToLower;
    StoredGives(lines);
    if lines == [] {
      NothingRead(InHeaderName(HeadAt(m, []), ""), lim);
    } else {
      var n := |lines| - 1;
      ReadLines(m, lines[..n], lim);
      ReadLine(HeadAt(m, lines[..n]), lines[n], lim);
      Then(InHeaderName(HeadAt(m, []), ""), LinesText(lines[..n]), InHeaderName(HeadAt(m, lines[..n]), ""),
           LineText(lines[n]), lim);
    }
  }

  lemma NothingRead(p: Parser, lim: Limits)
    ensures Run(p, "", lim) == Silent(p)
  {
  }

  lemma ReadHead(m: Message, lines: seq<Line>, lim: Limits)
    requires GoodRequestLine(m, lim) && GoodLines(lines) && (lines == [] || |LinesText(lines)| <= lim.headerBytes + 1)
    ensures Run(START, HeadText(m, lines), lim) == Silent(InHeaderName(HeadAt(m, lines), ""))
  {
    hide Run, RequestLine, CleanUri, LinesText, GoodLines;
    ReadRequestLine(m, lim);
    ReadLines(m, lines, lim);
    assert HeadAt(m, []) == Head(m.version, m.verb, m.uri, map[], 0) by {
      NoLines(m);
    }
    Then(START, RequestLine(m), InHeaderName(HeadAt(m, []), ""), LinesText(lines), lim);
  }

  lemma NoLines(m: Message)
    ensures HeadAt(m, []) == Head(m.version, m.verb, m.uri, map[], 0)
  {
  }

  lemma CrOfBlankLine(h: Head, lim: Limits)
    requires h.bytes + 1 <= lim.headerBytes
    ensures Consume(InHeaderName(h, ""), '\r', lim) == Silent(InHeaderName(h.(bytes := h.bytes + 1), "\r"))
  {
    hide EndOfHeaders, TrimLeft;
    assert "" + "\r" == "\r";
  }

  lemma LfOfBlankLine(h: Head, lim: Limits)
    ensures Consume(InHeaderName(h, "\r"), '\n', lim) == EndOfHeaders(h.(bytes := h.bytes + 1), lim)
  {
    hide TrimLeft, EndOfHeaders;
  }

  lemma ReadBreak(p: Parser, q: Parser, lim: Limits)
    requires Consume(p, '\r', lim) == Silent(q)
    ensures Run(p, CRLF, lim) == Consume(q, '\n', lim)
  {
    hide Consume, Run;
    assert CRLF == "\r" + "\n";
    OneByte(p, '\r', lim);
    OneByte(q, '\n', lim);
    Then(p, "\r", q, "\n", lim);
  }

  /** The blank line, when its CR is within the limit. */
  lemma ReadBlankLine(h: Head, lim: Limits)
    requires h.bytes + 1 <= lim.headerBytes
    ensures Run(InHeaderName(h, ""), CRLF, lim) == EndOfHeaders(h.(bytes := h.bytes + 2), lim)
  {
    hide Consume, Run, EndOfHeaders;
    CrOfBlankLine(h, lim);
    var h1 := h.(bytes := h.bytes + 1);
    LfOfBlankLine(h1, lim);
    ReadBreak(InHeaderName(h, ""), InHeaderName(h1, "\r"), lim);
  }

  /** What a header table leads to behind the blank line. */
  lemma HeadersLead(h: Head, n: int, lim: Limits)
    ensures ListsChunked(h.headers) ==> EndOfHeaders(h, lim) == Silent(InChunkSize(h, ""))
    ensures !ListsChunked(h.headers) && "content-length" !in h.headers ==>
              EndOfHeaders(h, lim) == Step(START, [Finished(h, "")])
    ensures !ListsChunked(h.headers) && "content-length" in h.headers && Declares(h.headers["content-length"], n) ==>
              EndOfHeaders(h, lim)
              == Silent(if -0x8000_0000 <= n <= lim.bodySize then InBody(h, n, "") else Failed)
  {
    hide IsChunked, ParseNumber, ListsChunked, Declares;
    ChunkedExactly(h.headers);
    if "content-length" in h.headers && Declares(h.headers["content-length"], n) {
      DeclaredIsOne(h.headers["content-length"], n);
    }
  }

  /** A value declares one number only. */
  lemma DeclaredIsOne(s: string, n: int)
    requires Declares(s, n)
    ensures ParseNumber(s) == if -0x8000_0000 <= n < 0x8000_0000 then Some(n) else None
  {
    hide FromChars, Numeral;
    ParseNumberExactly(s, n);
    if Numeral(s, n, 10) {
      NumeralBegins(s, n);
      NumeralRead(s, n, 10);
    } else {
      var inner :| s == "\"" + inner + "\"" && Numeral(inner, n, 10);
      NumeralBegins(inner, n);
      NumeralRead(inner, n, 10);
      assert s[1..|s| - 1] == inner;
    }
  }

  /** A chunked body follows if and only if one of the transfer codings, written as a list of tokens, is
      `chunked`. */
  lemma ChunkedIfListed(h: Head, codings: seq<Item>, lim: Limits)
    requires "transfer-encoding" in h.headers && h.headers["transfer-encoding"] == ListText(codings)
    requires GoodItems(codings) && forall k :: 0 <= k < |codings| ==> codings[k].token != ""
    ensures EndOfHeaders(h, lim).next.InChunkSize? <==> exists k :: 0 <= k < |codings| && codings[k].token == "chunked"
  {
    hide ParseNumber, ListText;
    ListReadBack(codings);
    TokensAre(codings, "chunked");
  }

  lemma {:induction false} TokensAre(xs: seq<Item>, token: string)
    ensures token in Tokens(xs) <==> exists k :: 0 <= k < |xs| && xs[k].token == token
  {
    if xs != [] {
      TokensAre(xs[1..], token);
      if k :| 0 < k < |xs| && xs[k].token == token {
        assert xs[1..][k - 1].token == token;
      }
    }
  }

  /** The declared length, with or without quotes: any `n` over the limit is refused, any other is
      taken. */
  lemma DecimalLength(h: Head, n: nat, quoted: bool, lim: Limits)
    requires !ListsChunked(h.headers) && "content-length" in h.headers
    requires h.headers["content-length"] == if quoted then "\"" + Print(n, 10) + "\"" else Print(n, 10)
    ensures EndOfHeaders(h, lim) == Silent(if n <= lim.bodySize then InBody(h, n, "") else Failed)
  {
    hide Numeral, ListsChunked, EndOfHeaders, Print;
    PrintIsNumeral(n, 10);
    assert Declares(h.headers["content-length"], n);
    HeadersLead(h, n, lim);
  }

  lemma ReadEnd(head: Head, m: Message, lim: Limits)
    requires head.version == m.version && head.verb == m.verb && head.uri == m.uri && head.headers == m.headers
    requires Delimited(m) && head.bytes + 1 <= lim.headerBytes && WithinBody(m.body, lim)
    ensures Run(InHeaderName(head, ""), CRLF + m.body, lim) == Step(START, [m])
  {
    hide ListsChunked, Declares, EndOfHeaders, Run;
    ReadBlankLine(head, lim);
    var h := head.(bytes := head.bytes + 2);
    HeadersLead(h, |m.body|, lim);
    if m.body == "" {
      assert CRLF + m.body == CRLF;
    } else {
      Then(InHeaderName(head, ""), CRLF, InBody(h, |m.body|, ""), m.body, lim);
      BodyText(h, |m.body|, "", m.body, lim);
      assert "" + m.body == m.body;
    }
  }

  /** Request round trip: a clean request within the limits is read back, and the parser is as it was
      before, whatever the case of the header names, with their lines in any order and repeated. */
  lemma RequestReadBack(m: Message, lines: seq<Line>, lim: Limits)
    requires GoodRequest(m, lines, lim)
    ensures Run(START, RequestSent(m, lines), lim) == Step(START, [m])
  {
    hide Run, HeadText, CleanUri, GoodLines, Delimited, LinesText, Gives;
    ReadHead(m, lines, lim);
    StoredExactly(lines, m.headers);
    var h := HeadAt(m, lines);
    Then(START, HeadText(m, lines), InHeaderName(h, ""), CRLF + m.body, lim);
    ReadEnd(h, m, lim);
  }

  // -------------------------------------------------------------- the request printer

  function PrintedLine(headers: Headers, name: string): Line
    requires name in headers
  {
    Line(0, name, 1, headers[name])
  }

  /** The lines that the printer writes. */
  function PrintedLines(headers: Headers, order: seq<string>): (lines: seq<Line>)
    requires forall k :: 0 <= k < |order| ==> order[k] in headers
  {
    seq(|order|, k requires 0 <= k < |order| => PrintedLine(headers, order[k]))
  }

  lemma LineIsPrinted(name: string, value: string)
    ensures LineText(Line(0, name, 1, value)) == HeaderLine(name, value)
  {
    assert Spaces(0) == "" && Spaces(1) == " ";
    assert "" + name == name;
  }

  lemma {:induction false} LinesArePrinted(headers: Headers, order: seq<string>)
    requires forall k :: 0 <= k < |order| ==> order[k] in headers
    ensures LinesText(PrintedLines(headers, order)) == HeaderLines(headers, order)
    decreases |order|
  {
    hide LineText, HeaderLine;
    if order != [] {
      var n := |order| - 1;
      assert PrintedLines(headers, order)[..n] == PrintedLines(headers, order[..n]);
      LinesArePrinted(headers, order[..n]);
      LineIsPrinted(order[n], headers[order[n]]);
      HeaderLinesSnoc(headers, order[..n], order[n]);
      assert order[..n] + [order[n]] == order;
    }
  }

  lemma PrintedValue(headers: Headers, order: seq<string>, k: nat)
    requires IsOrder(order, headers) && k < |order| && forall name :: name in headers ==> NoCapitals(name)
    ensures FirstValue(PrintedLines(headers, order), order[k], headers[order[k]])
    ensures Kept(order[k], headers)
  {
    hide NoCapitals, SameButCase;
    var lines := PrintedLines(headers, order);
    SameAsItself(order[k]);
    forall j | 0 <= j < k
      ensures !SameButCase(lines[j].name, order[k])
    {
      ToLowerExactly(order[j], order[k]);
      SameAsItself(order[j]);
      ToLowerExactly(order[j], order[j]);
    }
    assert First(lines, k, order[k]) && lines[k].value == headers[order[k]];
  }

  /** They give the table they were printed from. */
  lemma PrintedGives(headers: Headers, order: seq<string>)
    requires IsOrder(order, headers) && forall name :: name in headers ==> NoCapitals(name)
    ensures Gives(PrintedLines(headers, order), headers)
  {
    hide NoCapitals, FirstValue, Kept;
    forall name | name in headers
      ensures FirstValue(PrintedLines(headers, order), name, headers[name])
    {
      var k :| 0 <= k < |order| && order[k] == name;
      PrintedValue(headers, order, k);
    }
    forall k | 0 <= k < |order|
      ensures Kept(order[k], headers)
    {
      PrintedValue(headers, order, k);
    }
  }

  /** A request that is as the assembler leaves them: no capitals in its header names, which are clean as
      their values are. */
  ghost predicate Clean(m: Message) {
    && Known(m.verb) && m.version != NoVersion && CleanUri(m.uri) && Delimited(m)
    && forall name :: name in m.headers ==> NoCapitals(name) && GoodLine(PrintedLine(m.headers, name))
  }

  /** What the printer writes of a clean request, with its headers in any order, is read back as the
      request. */
  lemma PrintedReadBack(m: Message, order: seq<string>, lim: Limits)
    requires Clean(m) && IsOrder(order, m.headers)
    requires |RequestLine(m)| <= lim.requestLine + 1 && |HeaderLines(m.headers, order)| + 2 <= lim.headerBytes + 1
    requires WithinBody(m.body, lim)
    ensures GoodRequest(m, PrintedLines(m.headers, order), lim)
    ensures Run(START, RequestText(m, order), lim) == Step(START, [m])
  {
    hide Run, RequestLine, CleanUri, Delimited, HeaderLines, LinesText, Gives, GoodLine, NoCapitals;
    var lines := PrintedLines(m.headers, order);
    LinesArePrinted(m.headers, order);
    PrintedGives(m.headers, order);
    RequestReadBack(m, lines, lim);
    assert RequestText(m, order) == RequestSent(m, lines);
  }

  // --------------------------------------------------------------------- pipelines

  /** A request and the lines its headers are sent in. */
  datatype Request = Request(message: Message, lines: seq<Line>)

  /** Requests sent one after the other. */
  function Pipeline(requests: seq<Request>): string {
    if requests == [] then "" else RequestSent(requests[0].message, requests[0].lines) + Pipeline(requests[1..])
  }

  function MessagesOf(requests: seq<Request>): seq<Message> {
    if requests == [] then [] else [requests[0].message] + MessagesOf(requests[1..])
  }

  /** Pipelining: any list of clean requests, sent one after the other, is read back as that list. */
  lemma {:induction false} PipelineReadBack(requests: seq<Request>, lim: Limits)
    requires forall k :: 0 <= k < |requests| ==> GoodRequest(requests[k].message, requests[k].lines, lim)
    ensures Run(START, Pipeline(requests), lim) == Step(START, MessagesOf(requests))
    decreases |requests|
  {
    hide Run, RequestSent, GoodRequest;
    if requests == [] {
      NothingRead(START, lim);
    } else {
      RequestReadBack(requests[0].message, requests[0].lines, lim);
      PipelineReadBack(requests[1..], lim);
      RunAppend(START, RequestSent(requests[0].message, requests[0].lines), Pipeline(requests[1..]), lim);
    }
  }
}
