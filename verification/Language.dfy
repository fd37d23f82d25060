/** The language of the assembler: which streams it takes, what it has read of each, and what comes out,
    said without a parser (sections 2, 3, 5, 6.3 and 7.1 of RFC 9112, with the liberties the code takes). */
module Language {
  import opened Text
  import opened Http
  import opened StreamParser
  import opened RequestRoundTrip
  import opened ChunkedDecoding

  // ----------------------------------------------------------------------- whole requests

  /** What a client may send: a request with its body in one piece or in chunks. */
  datatype Exchange =
    | Plain(message: Message, lines: seq<Line>)
    | Chunked(message: Message, lines: seq<Line>, chunks: seq<Chunk>, last: Size)

  ghost predicate Good(x: Exchange, lim: Limits) {
    match x
    case Plain(m, lines) => GoodRequest(m, lines, lim)
    case Chunked(m, lines, chunks, last) => GoodChunked(m, lines, chunks, last, lim)
  }

  ghost predicate AllGood(xs: seq<Exchange>, lim: Limits) {
    forall k :: 0 <= k < |xs| ==> Good(xs[k], lim)
  }

  function Sent(x: Exchange): string {
    match x
    case Plain(m, lines) => RequestSent(m, lines)
    case Chunked(m, lines, chunks, last) => ChunkedText(m, lines, chunks, last)
  }

  function Due(x: Exchange): seq<Message> {
    match x
    case Plain(m, _) => [m]
    case Chunked(m, _, chunks, _) => BodyMessages(HeadOf(m), chunks)
  }

  function AllSent(xs: seq<Exchange>): string {
    if xs == [] then "" else AllSent(xs[..|xs| - 1]) + Sent(xs[|xs| - 1])
  }

  function AllDue(xs: seq<Exchange>): seq<Message> {
    if xs == [] then [] else AllDue(xs[..|xs| - 1]) + Due(xs[|xs| - 1])
  }

  lemma ExchangeRead(x: Exchange, lim: Limits)
    requires Good(x, lim)
    ensures Run(START, Sent(x), lim) == Step(START, Due(x))
  {
    hide Run, RequestSent, ChunkedText, GoodRequest, GoodChunked, BodyMessages;
    match x
    case Plain(m, lines) => RequestReadBack(m, lines, lim);
    case Chunked(m, lines, chunks, last) => ChunkedRequestReadBack(m, lines, chunks, last, lim);
  }

  lemma {:induction false} ExchangesRead(xs: seq<Exchange>, lim: Limits)
    requires AllGood(xs, lim)
    ensures Run(START, AllSent(xs), lim) == Step(START, AllDue(xs))
    decreases |xs|
  {
    hide Run, Good, Sent, Due;
    if xs == [] {
      NothingRead(START, lim);
    } else {
      var n := |xs| - 1;
      ExchangesRead(xs[..n], lim);
      ExchangeRead(xs[n], lim);
      Follow(START, AllSent(xs[..n]), START, AllDue(xs[..n]), Sent(xs[n]), lim);
    }
  }

  // ------------------------------------------------------------ a request under way

  /** What has been read of a request or response that is not complete. Of `m` only the version, the
      method, the target and, behind the blank line, the headers matter. */
  datatype Reading =
    | Word(text: string)
    | StatusLine(version: Version, text: string)
    | ReasonLine(version: Version, code: string, text: string)
    | Target(verb: Method, text: string)
    | VersionWord(verb: Method, uri: string, text: string)
    | Name(m: Message, lines: seq<Line>, text: string)
    | Value(m: Message, lines: seq<Line>, line: Line, text: string)
    | Body(m: Message, lines: seq<Line>, length: int, text: string)
    | SizeOf(m: Message, lines: seq<Line>, chunks: seq<Chunk>, text: string)
    | Data(m: Message, lines: seq<Line>, chunks: seq<Chunk>, size: Size, length: int, text: string)
    | ChunkEnd(m: Message, lines: seq<Line>, chunks: seq<Chunk>, chunk: Chunk, text: string)
    | LastLine(m: Message, lines: seq<Line>, chunks: seq<Chunk>, last: Size, text: string)

  function HeadSection(m: Message, lines: seq<Line>): string {
    HeadText(m, lines) + CRLF
  }

  function ChunkedSoFar(m: Message, lines: seq<Line>, chunks: seq<Chunk>): string {
    HeadSection(m, lines) + ChunksText(chunks)
  }

  function TextOf(r: Reading): string {
    match r
    case Word(text) => text
    case StatusLine(version, text) => VersionName(version) + " " + text
    case ReasonLine(version, code, text) => VersionName(version) + " " + code + " " + text
    case Target(verb, text) => MethodName(verb) + " " + text
    case VersionWord(verb, uri, text) => MethodName(verb) + " " + uri + " " + text
    case Name(m, lines, text) => HeadText(m, lines) + text
    case Value(m, lines, line, text) => HeadText(m, lines) + (NamePart(line) + ":") + text
    case Body(m, lines, _, text) => HeadSection(m, lines) + text
    case SizeOf(m, lines, chunks, text) => ChunkedSoFar(m, lines, chunks) + text
    case Data(m, lines, chunks, size, _, text) => ChunkedSoFar(m, lines, chunks) + SizeLine(size) + text
    case ChunkEnd(m, lines, chunks, chunk, text) =>
      ChunkedSoFar(m, lines, chunks) + (SizeLine(chunk.size) + chunk.data) + text
    case LastLine(m, lines, chunks, last, text) => ChunkedSoFar(m, lines, chunks) + SizeLine(last) + text
  }

  predicate AllAscii(s: string) {
    forall k :: 0 <= k < |s| ==> Ascii(s[k])
  }

  predicate Numeric(s: string) {
    forall k :: 0 <= k < |s| ==> '0' <= s[k] <= '9'
  }

  /** Every byte but the one that ends the line is held against its limit. */
  predicate LineSoFar(r: Reading, lim: Limits) {
    r.text == "" || |TextOf(r)| <= lim.requestLine
  }

  predicate LinesSoFar(m: Message, lines: seq<Line>, lim: Limits) {
    GoodRequestLine(m, lim) && GoodLines(lines) && (lines == [] || |LinesText(lines)| <= lim.headerBytes + 1)
  }

  ghost predicate ChunkedHead(m: Message, lines: seq<Line>, chunks: seq<Chunk>, lim: Limits) {
    GoodHead(m, lines, lim) && ListsChunked(m.headers) && GoodChunks(chunks, lim)
  }

  predicate PartOfBreak(text: string) {
    text == "" || text == "\r" || text == "\n"
  }

  ghost predicate Valid(r: Reading, lim: Limits) {
    match r
    case Word(text) => |text| <= 8 && AllAscii(text) && forall k :: 0 < k < |text| ==> text[k] != ' '
    case StatusLine(version, text) => version != NoVersion && Numeric(text) && LineSoFar(r, lim)
    case ReasonLine(version, code, text) =>
      && version != NoVersion && |code| == 3 && Numeric(code) && |VersionName(version)| + 4 <= lim.requestLine
      && AllAscii(text) && LineSoFar(r, lim)
    case Target(verb, text) => Known(verb) && (text == "" || CleanUri(text)) && LineSoFar(r, lim)
    case VersionWord(verb, uri, text) =>
      && Known(verb) && CleanUri(uri) && |MethodName(verb)| + 1 + |uri| <= lim.requestLine
      && AllAscii(text) && NoLineEnd(text) && LineSoFar(r, lim)
    case Name(m, lines, text) =>
      && LinesSoFar(m, lines, lim) && AllAscii(text) && ':' !in text && !StartsWithBreak(text)
      && (text == "" || |LinesText(lines)| + |text| <= lim.headerBytes)
    case Value(m, lines, line, text) =>
      && LinesSoFar(m, lines, lim) && CleanName(line) && |LinesText(lines)| + |NamePart(line)| <= lim.headerBytes
      && AllAscii(text) && NoLineBreak(text)
      && (text == "" || |LinesText(lines)| + |NamePart(line)| + 1 + |text| <= lim.headerBytes)
    case Body(m, lines, length, text) =>
      && GoodHead(m, lines, lim) && !ListsChunked(m.headers)
      && "content-length" in m.headers && Declares(m.headers["content-length"], length)
      && -0x8000_0000 <= length <= lim.bodySize && (text == "" || |text| <= lim.bodySize)
      && (length <= 0 || |text| < length)
    case SizeOf(m, lines, chunks, text) => ChunkedHead(m, lines, chunks, lim) && SizeBytes(text)
    case Data(m, lines, chunks, size, length, text) =>
      && ChunkedHead(m, lines, chunks, lim) && |text| < length <= lim.bodyMemory && SizeIs(size, length)
      && (text == "" || |text| <= lim.bodySize)
    case ChunkEnd(m, lines, chunks, chunk, text) =>
      ChunkedHead(m, lines, chunks, lim) && GoodChunk(chunk, lim) && PartOfBreak(text)
    case LastLine(m, lines, chunks, last, text) =>
      ChunkedHead(m, lines, chunks, lim) && GoodLast(last, lim) && PartOfBreak(text)
  }

  /** Behind the blank line. */
  function EndAt(m: Message, lines: seq<Line>): Head {
    Head(m.version, m.verb, m.uri, m.headers, |LinesText(lines)| + 2)
  }

  function After(r: Reading): Parser {
    match r
    case Word(text) => InMethod(text)
    case StatusLine(_, text) => InStatus(|TextOf(r)|, text)
    case ReasonLine(_, _, _) => InReason(|TextOf(r)|)
    case Target(verb, text) => InUri(verb, |TextOf(r)|, text)
    case VersionWord(verb, uri, text) => InVersion(verb, uri, |TextOf(r)|, text)
    case Name(m, lines, text) => InHeaderName(NameHead(m, lines, |text|), text)
    case Value(m, lines, line, text) =>
      InHeaderValue(NameHead(m, lines, |NamePart(line)| + 1 + |text|), line.indent, line.name, text)
    case Body(m, lines, length, text) => InBody(EndAt(m, lines), length, text)
    case SizeOf(m, lines, chunks, text) => InChunkSize(HeadBehind(EndAt(m, lines), chunks), text)
    case Data(m, lines, chunks, _, length, text) => InChunk(HeadBehind(EndAt(m, lines), chunks), length, text)
    case ChunkEnd(m, lines, _, _, text) => InChunkEnd(WithoutHeaders(EndAt(m, lines)), text)
    case LastLine(m, lines, chunks, _, text) => InLastLine(HeadBehind(EndAt(m, lines), chunks), text)
  }

  /** `n` bytes behind the last line. */
  function NameHead(m: Message, lines: seq<Line>, n: nat): Head {
    HeadAt(m, lines).(bytes := |LinesText(lines)| + n)
  }

  function Came(r: Reading): seq<Message> {
    match r
    case SizeOf(m, _, chunks, _) => ChunkMessages(HeadOf(m), chunks)
    case Data(m, _, chunks, _, _, _) => ChunkMessages(HeadOf(m), chunks)
    case ChunkEnd(m, _, chunks, chunk, _) =>
      ChunkMessages(HeadOf(m), chunks) + [Finished(HeadBehind(HeadOf(m), chunks), chunk.data)]
    case LastLine(m, _, chunks, _, _) => ChunkMessages(HeadOf(m), chunks)
    case _ => []
  }

  // ------------------------------------------------------------------ one more byte

  /** Where one more byte leads. */
  datatype Outcome = Refused | Continues(reading: Reading) | Completes(exchange: Exchange)

  ghost predicate LeadsTo(r: Reading, c: char, out: Outcome, lim: Limits) {
    var o := Consume(After(r), c, lim);
    match out
    case Refused => o == Silent(Failed)
    case Continues(q) =>
      && Valid(q, lim) && TextOf(q) == TextOf(r) + [c]
      && o.next == After(q) && Came(q) == Came(r) + o.messages
    case Completes(x) =>
      && Good(x, lim) && Sent(x) == TextOf(r) + [c]
      && o.next == START && Due(x) == Came(r) + o.messages
  }

  lemma WordByte(r: Reading, c: char, lim: Limits) returns (out: Outcome)
    requires r.Word? && Valid(r, lim)
    ensures LeadsTo(r, c, out, lim)
  {
    if c == ' ' && r.text != "" {
      if VersionOf(r.text) != NoVersion {
        out := Continues(StatusLine(VersionOf(r.text), ""));
      } else if ParseMethod(r.text) == INVALID {
        out := Refused;
      } else {
        MethodTable(r.text, ParseMethod(r.text));
        out := Continues(Target(ParseMethod(r.text), ""));
      }
    } else if |r.text| + 1 > 8 || !Ascii(c) {
      out := Refused;
    } else {
      out := Continues(Word(r.text + [c]));
    }
  }

  lemma StatusByte(r: Reading, c: char, lim: Limits) returns (out: Outcome)
    requires (r.StatusLine? || r.ReasonLine?) && Valid(r, lim)
    ensures LeadsTo(r, c, out, lim)
  {
    hide VersionName;
    if r.StatusLine? {
      if c == ' ' {
        out := if |r.text| == 3 then Continues(ReasonLine(r.version, r.text, "")) else Refused;
      } else if |TextOf(r)| + 1 > lim.requestLine || !IsDigit(c, 10) {
        out := Refused;
      } else {
        out := Continues(StatusLine(r.version, r.text + [c]));
        assert TextOf(out.reading) == TextOf(r) + [c];
      }
    } else if |TextOf(r)| + 1 > lim.requestLine || !Ascii(c) {
      out := Refused;
    } else {
      out := Continues(ReasonLine(r.version, r.code, r.text + [c]));
      assert TextOf(out.reading) == TextOf(r) + [c];
    }
  }

  lemma TargetByte(r: Reading, c: char, lim: Limits) returns (out: Outcome)
    requires r.Target? && Valid(r, lim)
    ensures LeadsTo(r, c, out, lim)
  {
    hide MethodName;
    if c == ' ' {
      out := if r.text == "" then Refused else Continues(VersionWord(r.verb, r.text, ""));
    } else if |TextOf(r)| + 1 > lim.requestLine || !Ascii(c) {
      out := Refused;
    } else {
      out := Continues(Target(r.verb, r.text + [c]));
      assert TextOf(out.reading) == TextOf(r) + [c];
    }
  }

  lemma VersionWordByte(r: Reading, c: char, lim: Limits) returns (out: Outcome)
    requires r.VersionWord? && Valid(r, lim) && !(|r.text| > 1 && c == '\n' && EndsWithCr(r.text))
    ensures LeadsTo(r, c, out, lim)
  {
    hide MethodName;
    if |TextOf(r)| + 1 > lim.requestLine || !Ascii(c) {
      out := Refused;
    } else {
      out := Continues(VersionWord(r.verb, r.uri, r.text + [c]));
      assert TextOf(out.reading) == TextOf(r) + [c];
    }
  }

  lemma RequestLineEnds(r: Reading, lim: Limits) returns (out: Outcome)
    requires r.VersionWord? && Valid(r, lim) && |r.text| > 1 && EndsWithCr(r.text)
    ensures LeadsTo(r, '\n', out, lim)
  {
    hide MethodName, AllAscii, NoLineEnd, CleanUri;
    var version := VersionOf(Front(r.text));
    if version == NoVersion {
      out := Refused;
    } else {
      var m := Message(version, r.verb, r.uri, map[], "");
      assert r.text == VersionName(version) + "\r";
      assert RequestLine(m) == TextOf(r) + ['\n'];
      out := Continues(Name(m, [], ""));
      assert AllAscii("") by {
        NothingInIt();
      }
    }
  }

  lemma Associate(a: string, b: string, c: string)
    ensures (a + b) + c == a + (b + c)
  {
  }

  lemma NameOf(text: string) returns (line: Line)
    requires TrimLeft(text) != "" && AllAscii(text) && ':' !in text && !StartsWithBreak(text)
    ensures NamePart(line) == text && CleanName(line) && line.name == TrimLeft(text)
    ensures line.indent == |text| - |TrimLeft(text)|
  {
    TrimLeftFacts(text);
    hide TrimLeft;
    line := Line(|text| - |TrimLeft(text)|, TrimLeft(text), 0, "");
    assert NamePart(line) == text;
    assert forall k :: 0 <= k < |line.name| ==> line.name[k] == text[line.indent + k];
  }

  lemma ColonReads(r: Reading, lim: Limits) returns (out: Outcome)
    requires r.Name? && Valid(r, lim)
    ensures LeadsTo(r, ':', out, lim)
  {
    hide HeadText, LinesText, LinesSoFar, Stored, CleanName, NamePart, StartsWithBreak, AllAscii;
    if TrimLeft(r.text) == "" {
      out := Refused;
    } else {
      assert r.text != "";
      var line := NameOf(r.text);
      hide TrimLeft, EndOfHeaders;
      out := Continues(Value(r.m, r.lines, line, ""));
      assert AllAscii("") && NoLineBreak("") by {
        NothingInIt();
      }
      assert HeadText(r.m, r.lines) + (r.text + ":") + "" == HeadText(r.m, r.lines) + r.text + [':'];
    }
  }

  lemma NothingInIt()
    ensures AllAscii("") && NoLineBreak("")
  {
  }

  lemma NameByte(r: Reading, c: char, lim: Limits) returns (out: Outcome)
    requires r.Name? && Valid(r, lim) && c != ':' && !(c == '\n' && r.text == "\r")
    ensures LeadsTo(r, c, out, lim)
  {
    hide HeadText, LinesText, LinesSoFar, Stored, TrimLeft, EndOfHeaders;
    if |LinesText(r.lines)| + |r.text| + 1 > lim.headerBytes || !Ascii(c) {
      out := Refused;
    } else {
      out := Continues(Name(r.m, r.lines, r.text + [c]));
      Associate(HeadText(r.m, r.lines), r.text, [c]);
    }
  }

  /** The request with the table its lines give. */
  function Stocked(m: Message, lines: seq<Line>): Message {
    m.(headers := Stored(lines), body := "")
  }

  lemma SectionEnds(r: Reading, lim: Limits)
    requires r.Name? && Valid(r, lim) && r.text == "\r"
    ensures var m := Stocked(r.m, r.lines);
            && GoodHead(m, r.lines, lim) && HeadSection(m, r.lines) == TextOf(r) + ['\n']
            && Consume(After(r), '\n', lim) == EndOfHeaders(EndAt(m, r.lines), lim)
  {
    hide LinesText, Stored, GoodLines, EndOfHeaders, CleanUri, Gives;
    StoredExactly(r.lines, Stored(r.lines));
    LfOfBlankLine(NameHead(r.m, r.lines, 1), lim);
    hide Consume;
    assert "\r" + ['\n'] == CRLF;
    Associate(HeadText(r.m, r.lines), "\r", ['\n']);
  }

  lemma ChunksFollow(m: Message, lines: seq<Line>, lim: Limits)
    requires GoodHead(m, lines, lim) && ListsChunked(m.headers)
    ensures var q := SizeOf(m, lines, [], "");
            && Valid(q, lim) && TextOf(q) == HeadSection(m, lines) && Came(q) == []
            && EndOfHeaders(EndAt(m, lines), lim) == Silent(After(q))
  {
    hide HeadSection, GoodHead, ListsChunked, EndOfHeaders;
    HeadersLead(EndAt(m, lines), 0, lim);
    var head := HeadSection(m, lines);
    assert (head + "") + "" == head;
  }

  lemma BodyFollows(m: Message, lines: seq<Line>, length: int, lim: Limits)
    requires GoodHead(m, lines, lim) && !ListsChunked(m.headers) && "content-length" in m.headers
    requires ParseNumber(m.headers["content-length"]) == Some(length) && length <= lim.bodySize
    ensures var q := Body(m, lines, length, "");
            && Valid(q, lim) && TextOf(q) == HeadSection(m, lines) && Came(q) == []
            && EndOfHeaders(EndAt(m, lines), lim) == Silent(After(q))
  {
    hide HeadSection, GoodHead, ListsChunked, EndOfHeaders, ParseNumber, Declares;
    ParseNumberExactly(m.headers["content-length"], length);
    HeadersLead(EndAt(m, lines), length, lim);
    assert HeadSection(m, lines) + "" == HeadSection(m, lines);
  }

  lemma NothingFollows(m: Message, lines: seq<Line>, lim: Limits)
    requires GoodHead(m, lines, lim) && !ListsChunked(m.headers) && "content-length" !in m.headers && m.body == ""
    ensures Good(Plain(m, lines), lim) && RequestSent(m, lines) == HeadSection(m, lines)
    ensures EndOfHeaders(EndAt(m, lines), lim) == Step(START, [m])
  {
    hide HeadText, GoodHead, ListsChunked, EndOfHeaders;
    HeadersLead(EndAt(m, lines), 0, lim);
    assert CRLF + "" == CRLF;
  }

  lemma LengthRefused(m: Message, lines: seq<Line>, lim: Limits)
    requires !ListsChunked(m.headers) && "content-length" in m.headers
    requires var number := ParseNumber(m.headers["content-length"]); number.Some? ==> number.value > lim.bodySize
    ensures EndOfHeaders(EndAt(m, lines), lim) == Silent(Failed)
  {
    ChunkedExactly(m.headers);
    hide IsChunked, ListsChunked, ParseNumber, LinesText;
  }

  lemma BlankLineReads(r: Reading, lim: Limits) returns (out: Outcome)
    requires r.Name? && Valid(r, lim) && r.text == "\r"
    ensures LeadsTo(r, '\n', out, lim)
  {
    hide Consume, ParseNumber, GoodHead, HeadSection, ListsChunked, EndOfHeaders;
    hide Valid, TextOf, Stored, LinesText, Good;
    SectionEnds(r, lim);
    var m := Stocked(r.m, r.lines);
    if ListsChunked(m.headers) {
      ChunksFollow(m, r.lines, lim);
      out := Continues(SizeOf(m, r.lines, [], ""));
    } else if "content-length" in m.headers {
      var number := ParseNumber(m.headers["content-length"]);
      if number.Some? && number.value <= lim.bodySize {
        BodyFollows(m, r.lines, number.value, lim);
        out := Continues(Body(m, r.lines, number.value, ""));
      } else {
        LengthRefused(m, r.lines, lim);
        out := Refused;
      }
    } else {
      NothingFollows(m, r.lines, lim);
      out := Completes(Plain(m, r.lines));
    }
  }

  lemma ValueByte(r: Reading, c: char, lim: Limits) returns (out: Outcome)
    requires r.Value? && Valid(r, lim) && !(c == '\n' && EndsWithCr(r.text))
    ensures LeadsTo(r, c, out, lim)
  {
    hide HeadText, LinesText, LinesSoFar, Stored, TrimLeft, NamePart, CleanName, Emplace, ToLower;
    if |LinesText(r.lines)| + |NamePart(r.line)| + 1 + |r.text| + 1 > lim.headerBytes || !Ascii(c) {
      out := Refused;
    } else {
      out := Continues(Value(r.m, r.lines, r.line, r.text + [c]));
      Associate(HeadText(r.m, r.lines) + (NamePart(r.line) + ":"), r.text, [c]);
    }
  }

  lemma TrimmedText(text: string, gap: nat, value: string)
    requires EndsWithCr(text) && value == TrimLeft(Front(text)) && gap == |Front(text)| - |value|
    ensures Spaces(gap) + value + "\r" == text && (value != "" ==> value[0] != ' ')
  {
    TrimLeftFacts(Front(text));
    hide TrimLeft;
    assert Front(text) == Spaces(gap) + value;
    assert text == Front(text) + "\r";
  }

  lemma TrimmedClean(text: string, gap: nat, value: string)
    requires AllAscii(text) && NoLineBreak(text) && value != "" && value[0] != ' '
    requires text == Spaces(gap) + value + "\r"
    ensures CleanValue(value)
  {
    forall k | 0 <= k < |value|
      ensures Ascii(value[k]) && (k > 0 ==> !(value[k - 1] == '\r' && value[k] == '\n'))
    {
      assert text[gap + k] == value[k];
      assert k > 0 ==> text[gap + k - 1] == value[k - 1];
    }
  }

  lemma LineAdded(m: Message, lines: seq<Line>, line: Line, lim: Limits)
    requires LinesSoFar(m, lines, lim) && GoodLine(line)
    requires |LinesText(lines)| + |LineText(line)| <= lim.headerBytes + 1
    ensures LinesSoFar(m, lines + [line], lim)
    ensures HeadText(m, lines + [line]) == HeadText(m, lines) + LineText(line)
    ensures |LinesText(lines + [line])| == |LinesText(lines)| + |LineText(line)|
    ensures Stored(lines + [line]) == Emplace(Stored(lines), ToLower(line.name), line.value)
  {
    hide LineText, GoodLine, RequestLine, CleanUri, Emplace, ToLower;
    var all := lines + [line];
    assert all[..|all| - 1] == lines && all[|all| - 1] == line;
    Associate(RequestLine(m), LinesText(lines), LineText(line));
  }

  lemma LineEnds(r: Reading, lim: Limits) returns (out: Outcome)
    requires r.Value? && Valid(r, lim) && EndsWithCr(r.text)
    ensures LeadsTo(r, '\n', out, lim)
  {
    hide HeadText, LinesText, LinesSoFar, Stored, CleanUri, Emplace, ToLower, NoLineBreak, CleanValue, TrimLeft;
    var value := TrimLeft(Front(r.text));
    if value == "" {
      out := Refused;
    } else {
      var line := r.line.(gap := |Front(r.text)| - |value|, value := value);
      TrimmedText(r.text, line.gap, value);
      TrimmedClean(r.text, line.gap, value);
      assert NamePart(line) == NamePart(r.line) && GoodLine(line);
      LineParts(line);
      hide NamePart, LineText;
      LineAdded(r.m, r.lines, line, lim);
      out := Continues(Name(r.m, r.lines + [line], ""));
      var head, name := HeadText(r.m, r.lines), NamePart(line) + ":";
      assert (head + name) + r.text + ['\n'] == head + (name + (r.text + "\n"));
      assert TextOf(out.reading) == HeadText(r.m, r.lines + [line]) + "";
    }
  }

  lemma BodyByte(r: Reading, c: char, lim: Limits) returns (out: Outcome)
    requires r.Body? && Valid(r, lim)
    ensures LeadsTo(r, c, out, lim)
  {
    hide HeadText, GoodHead, ListsChunked, Declares;
    var text := r.text + [c];
    Associate(HeadSection(r.m, r.lines), r.text, [c]);
    if |text| > lim.bodySize {
      out := Refused;
    } else if |text| == r.length {
      var m := r.m.(body := text);
      out := Completes(Plain(m, r.lines));
      BodyDoesNotShow(r.m, text, r.lines, lim);
      Associate(HeadText(m, r.lines), CRLF, text);
    } else {
      out := Continues(Body(r.m, r.lines, r.length, text));
    }
  }

  lemma BodyDoesNotShow(m: Message, body: string, lines: seq<Line>, lim: Limits)
    ensures HeadText(m.(body := body), lines) == HeadText(m, lines)
    ensures GoodHead(m.(body := body), lines, lim) <==> GoodHead(m, lines, lim)
  {
  }

  /** A size line that parses has a size at its front. */
  lemma SizeFound(text: string) returns (z: Size)
    requires SizeBytes(text) && FromChars(text, 16).Some?
    ensures FromChars(text, 16).value >= 0 && SizeIs(z, FromChars(text, 16).value) && SizeText(z) == text
  {
    hide FromChars, Spells, Digit;
    NumeralFound(text, 16);
    var n := FromChars(text, 16).value;
    var digits, rest :| SplitsAs(text, n, 16, digits, rest);
    if text == "-" + digits + rest {
      assert text[0] == '-' && SizeByte(text[0]);
      DigitExactly('-', 16);
    }
    z := Size(digits, rest);
    forall k | 0 <= k < |rest|
      ensures SizeByte(rest[k])
    {
      assert rest[k] == text[|digits| + k];
    }
  }

  lemma SizeOfByte(r: Reading, c: char, lim: Limits) returns (out: Outcome)
    requires r.SizeOf? && Valid(r, lim) && !(c == '\n' && EndsWithCr(r.text))
    ensures LeadsTo(r, c, out, lim)
  {
    hide ChunkedSoFar, GoodHead, GoodChunks, ListsChunked, FromChars, Digit;
    DigitExactly(c, 16);
    if IsDigit(c, 16) || c == '\r' {
      out := Continues(SizeOf(r.m, r.lines, r.chunks, r.text + [c]));
      Associate(ChunkedSoFar(r.m, r.lines, r.chunks), r.text, [c]);
    } else {
      out := Refused;
    }
  }

  lemma SizeLineEnds(r: Reading, lim: Limits) returns (out: Outcome)
    requires r.SizeOf? && Valid(r, lim) && EndsWithCr(r.text)
    ensures LeadsTo(r, '\n', out, lim)
  {
    hide ChunkedSoFar, GoodHead, GoodChunks, ListsChunked, FromChars, SizeIs, SizeByte, ChunkMessages;
    var number := FromChars(Front(r.text), 16);
    if number.None? || number.value > lim.bodyMemory {
      out := Refused;
    } else {
      var z := SizeFound(Front(r.text));
      assert SizeLine(z) == r.text + ['\n'];
      Associate(ChunkedSoFar(r.m, r.lines, r.chunks), r.text, ['\n']);
      if number.value > 0 {
        out := Continues(Data(r.m, r.lines, r.chunks, z, number.value, ""));
      } else {
        out := Continues(LastLine(r.m, r.lines, r.chunks, z, ""));
      }
      assert TextOf(out.reading) == ChunkedSoFar(r.m, r.lines, r.chunks) + SizeLine(z) + "";
    }
  }

  lemma DataByte(r: Reading, c: char, lim: Limits) returns (out: Outcome)
    requires r.Data? && Valid(r, lim) && |r.text| + 1 != r.length
    ensures LeadsTo(r, c, out, lim)
  {
    hide ChunkedSoFar, ChunkedHead, SizeIs, SizeLine, ChunkMessages;
    var text := r.text + [c];
    Associate(ChunkedSoFar(r.m, r.lines, r.chunks) + SizeLine(r.size), r.text, [c]);
    if |text| > lim.bodySize {
      out := Refused;
    } else {
      out := Continues(Data(r.m, r.lines, r.chunks, r.size, r.length, text));
    }
  }

  lemma DataEnds(r: Reading, c: char, lim: Limits) returns (out: Outcome)
    requires r.Data? && Valid(r, lim) && |r.text| + 1 == r.length
    ensures LeadsTo(r, c, out, lim)
  {
    hide ChunkedSoFar, ChunkedHead, SizeIs, SizeLine, ChunkMessages;
    var text, before := r.text + [c], ChunkedSoFar(r.m, r.lines, r.chunks);
    out := Continues(ChunkEnd(r.m, r.lines, r.chunks, Chunk(r.size, text), ""));
    assert before + (SizeLine(r.size) + text) + "" == before + SizeLine(r.size) + r.text + [c];
  }

  lemma ChunkAdded(m: Message, lines: seq<Line>, chunks: seq<Chunk>, c: Chunk, lim: Limits)
    requires GoodChunks(chunks, lim) && GoodChunk(c, lim)
    ensures GoodChunks(chunks + [c], lim)
    ensures ChunkedSoFar(m, lines, chunks + [c]) == ChunkedSoFar(m, lines, chunks) + (SizeLine(c.size) + c.data) + CRLF
    ensures forall h ::
              ChunkMessages(h, chunks + [c]) == ChunkMessages(h, chunks) + [Finished(HeadBehind(h, chunks), c.data)]
    ensures forall h :: HeadBehind(h, chunks + [c]) == WithoutHeaders(h)
  {
    hide GoodChunk, SizeLine, HeadSection;
    var all := chunks + [c];
    assert all[..|all| - 1] == chunks && all[|all| - 1] == c;
    assert HeadSection(m, lines) + (ChunksText(chunks) + (SizeLine(c.size) + (c.data + CRLF)))
        == HeadSection(m, lines) + ChunksText(chunks) + (SizeLine(c.size) + c.data) + CRLF;
  }

  lemma ChunkEndByte(r: Reading, c: char, lim: Limits) returns (out: Outcome)
    requires r.ChunkEnd? && Valid(r, lim)
    ensures LeadsTo(r, c, out, lim)
  {
    hide ChunkedSoFar, GoodHead, GoodChunks, GoodChunk, ListsChunked, SizeLine, ChunkMessages;
    var before := ChunkedSoFar(r.m, r.lines, r.chunks) + (SizeLine(r.chunk.size) + r.chunk.data);
    Associate(before, r.text, [c]);
    if r.text == "\r" && c == '\n' {
      ChunkAdded(r.m, r.lines, r.chunks, r.chunk, lim);
      out := Continues(SizeOf(r.m, r.lines, r.chunks + [r.chunk], ""));
      assert "\r" + ['\n'] == CRLF;
      assert TextOf(out.reading) == before + CRLF + "";
    } else if r.text == "" && (c == '\r' || c == '\n') {
      out := Continues(ChunkEnd(r.m, r.lines, r.chunks, r.chunk, [c]));
      assert "" + [c] == [c];
    } else {
      out := Refused;
    }
  }

  lemma LastLineByte(r: Reading, c: char, lim: Limits) returns (out: Outcome)
    requires r.LastLine? && Valid(r, lim)
    ensures LeadsTo(r, c, out, lim)
  {
    hide HeadText, GoodHead, GoodChunks, GoodLast, ListsChunked, SizeLine, ChunkMessages, ChunksText;
    var before := ChunkedSoFar(r.m, r.lines, r.chunks) + SizeLine(r.last);
    Associate(before, r.text, [c]);
    if r.text == "\r" && c == '\n' {
      out := Completes(Chunked(r.m, r.lines, r.chunks, r.last));
      assert "\r" + ['\n'] == CRLF;
      var head := HeadText(r.m, r.lines);
      assert head + (CRLF + (ChunksText(r.chunks) + (SizeLine(r.last) + CRLF)))
          == head + CRLF + ChunksText(r.chunks) + SizeLine(r.last) + CRLF;
    } else if r.text == "" && (c == '\r' || c == '\n') {
      out := Continues(LastLine(r.m, r.lines, r.chunks, r.last, [c]));
      assert "" + [c] == [c];
    } else {
      out := Refused;
    }
  }

  // ------------------------------------------------------- what is read so far is read

  lemma WordRead(r: Reading, lim: Limits)
    requires r.Word? && Valid(r, lim)
    ensures Run(START, TextOf(r), lim) == Step(After(r), Came(r))
  {
    var text := r.text;
    if text == "" {
      NothingRead(START, lim);
    } else {
      var first, rest := text[..1], text[1..];
      assert text == first + rest && first == [text[0]];
      OneByte(START, text[0], lim);
      assert "" + [text[0]] == first;
      assert Consume(START, text[0], lim) == Silent(InMethod(first));
      MethodText(first, rest, lim);
      hide Run;
      Then(START, first, InMethod(first), rest, lim);
    }
  }

  lemma VersionRead(v: Version, lim: Limits)
    requires v != NoVersion
    ensures Run(START, VersionName(v) + " ", lim) == Silent(InStatus(|VersionName(v)| + 1, ""))
  {
    var name := VersionName(v);
    VersionNames(v);
    VersionIsPlain(v);
    hide Run, VersionName, VersionOf;
    assert "" + name == name;
    MethodText("", name, lim);
    OneByte(InMethod(name), ' ', lim);
    Then(START, name, InMethod(name), " ", lim);
  }

  lemma VersionIsPlain(v: Version)
    ensures forall k :: 0 <= k < |VersionName(v)| ==> Ascii(VersionName(v)[k]) && VersionName(v)[k] != ' '
  {
  }

  lemma {:induction false} StatusText(count: nat, t: string, s: string, lim: Limits)
    requires Numeric(s) && (s == "" || count + |s| <= lim.requestLine)
    ensures Run(InStatus(count, t), s, lim) == Silent(InStatus(count + |s|, t + s))
    decreases |s|
  {
    if s == "" {
      assert t + s == t;
    } else {
      StatusText(count + 1, t + [s[0]], s[1..], lim);
      assert (t + [s[0]]) + s[1..] == t + s;
    }
  }

  lemma {:induction false} ReasonText(count: nat, s: string, lim: Limits)
    requires AllAscii(s) && (s == "" || count + |s| <= lim.requestLine)
    ensures Run(InReason(count), s, lim) == Silent(InReason(count + |s|))
    decreases |s|
  {
    if s != "" {
      ReasonText(count + 1, s[1..], lim);
    }
  }

  lemma StatusRead(v: Version, text: string, lim: Limits)
    requires v != NoVersion && Numeric(text) && (text == "" || |VersionName(v)| + 1 + |text| <= lim.requestLine)
    ensures Run(START, VersionName(v) + " " + text, lim) == Silent(InStatus(|VersionName(v)| + 1 + |text|, text))
  {
    hide Run, VersionName;
    VersionRead(v, lim);
    StatusText(|VersionName(v)| + 1, "", text, lim);
    assert "" + text == text;
    Then(START, VersionName(v) + " ", InStatus(|VersionName(v)| + 1, ""), text, lim);
  }

  lemma ReasonRead(r: Reading, lim: Limits)
    requires r.ReasonLine? && Valid(r, lim)
    ensures Run(START, TextOf(r), lim) == Step(After(r), Came(r))
  {
    hide Run, VersionName;
    StatusRead(r.version, r.code, lim);
    var line := VersionName(r.version) + " " + r.code;
    var p := InStatus(|line|, r.code);
    OneByte(p, ' ', lim);
    Then(START, line, p, " ", lim);
    ReasonText(|line| + 1, r.text, lim);
    Then(START, line + " ", InReason(|line| + 1), r.text, lim);
  }

  lemma TargetRead(r: Reading, lim: Limits)
    requires r.Target? && Valid(r, lim)
    ensures Run(START, TextOf(r), lim) == Step(After(r), Came(r))
  {
    hide Run, MethodName;
    ReadMethod(r.verb, lim);
    var line := MethodName(r.verb) + " ";
    var p := InUri(r.verb, |line|, "");
    if r.text == "" {
      assert line + "" == line;
    } else {
      UriText(r.verb, |line|, "", r.text, lim);
      assert "" + r.text == r.text;
      Then(START, line, p, r.text, lim);
    }
  }

  lemma {:induction false} VersionPart(verb: Method, uri: string, count: nat, text: string, lim: Limits)
    requires AllAscii(text) && NoLineEnd(text) && (text == "" || count + |text| <= lim.requestLine)
    ensures Run(InVersion(verb, uri, count, ""), text, lim) == Silent(InVersion(verb, uri, count + |text|, text))
  {
    assert "" + text == text;
    if text == "" {
      NothingRead(InVersion(verb, uri, count, ""), lim);
    } else {
      VersionText(verb, uri, count, "", text, lim);
    }
  }

  lemma VersionWordRead(r: Reading, lim: Limits)
    requires r.VersionWord? && Valid(r, lim)
    ensures Run(START, TextOf(r), lim) == Step(After(r), Came(r))
  {
    hide Run, MethodName, CleanUri, AllAscii, NoLineEnd;
    ReadMethod(r.verb, lim);
    var name := MethodName(r.verb) + " ";
    ReadUri(r.verb, |name|, r.uri, lim);
    Then(START, name, InUri(r.verb, |name|, ""), r.uri + " ", lim);
    var line := name + (r.uri + " ");
    assert TextOf(r) == line + r.text;
    VersionPart(r.verb, r.uri, |line|, r.text, lim);
    Then(START, line, InVersion(r.verb, r.uri, |line|, ""), r.text, lim);
  }

  lemma NameRead(r: Reading, lim: Limits)
    requires r.Name? && Valid(r, lim)
    ensures Run(START, TextOf(r), lim) == Step(After(r), Came(r))
  {
    hide Run, HeadText, LinesText, Stored, GoodLines, GoodRequestLine;
    ReadHead(r.m, r.lines, lim);
    var h := HeadAt(r.m, r.lines);
    assert "" + r.text == r.text;
    if r.text == "" {
      NothingRead(InHeaderName(h, ""), lim);
    } else {
      NameText(h, "", r.text, lim);
    }
    Then(START, HeadText(r.m, r.lines), InHeaderName(h, ""), r.text, lim);
  }

  lemma ValueRead(r: Reading, lim: Limits)
    requires r.Value? && Valid(r, lim)
    ensures Run(START, TextOf(r), lim) == Step(After(r), Came(r))
  {
    hide Run, HeadText, LinesText, Stored, GoodLines, GoodRequestLine, CleanName, NamePart, NoLineBreak, AllAscii;
    ReadHead(r.m, r.lines, lim);
    var h := HeadAt(r.m, r.lines);
    ReadName(h, r.line, lim);
    var name := NamePart(r.line) + ":";
    var p := InHeaderValue(h.(bytes := h.bytes + |name|), r.line.indent, r.line.name, "");
    Then(START, HeadText(r.m, r.lines), InHeaderName(h, ""), name, lim);
    ValuePartRead(p, r.text, lim);
    Then(START, HeadText(r.m, r.lines) + name, p, r.text, lim);
  }

  lemma ValuePartRead(p: Parser, text: string, lim: Limits)
    requires p.InHeaderValue? && p.text == "" && AllAscii(text) && NoLineBreak(text)
    requires text == "" || p.head.bytes + |text| <= lim.headerBytes
    ensures Run(p, text, lim)
            == Silent(InHeaderValue(p.head.(bytes := p.head.bytes + |text|), p.indent, p.name, text))
  {
    hide Run;
    assert "" + text == text;
    if text == "" {
      NothingRead(p, lim);
    } else {
      ValueText(p.head, p.indent, p.name, "", text, lim);
    }
  }

  lemma SectionRead(m: Message, lines: seq<Line>, lim: Limits)
    requires GoodHead(m, lines, lim)
    ensures Run(START, HeadSection(m, lines), lim) == EndOfHeaders(EndAt(m, lines), lim)
  {
    hide Run, HeadText, LinesText, Stored, GoodLines, GoodRequestLine, EndOfHeaders, Gives;
    ReadHead(m, lines, lim);
    StoredExactly(lines, m.headers);
    ReadBlankLine(HeadAt(m, lines), lim);
    Then(START, HeadText(m, lines), InHeaderName(HeadAt(m, lines), ""), CRLF, lim);
  }

  /** While fewer bytes than declared have come, and the limit is kept, a body goes on. */
  lemma {:induction false} BodyGoesOn(head: Head, length: int, t: string, s: string, lim: Limits)
    requires (s == "" || |t| + |s| <= lim.bodySize) && (length <= |t| || |t| + |s| < length)
    ensures Run(InBody(head, length, t), s, lim) == Silent(InBody(head, length, t + s))
    decreases |s|
  {
    if s == "" {
      assert t + s == t;
    } else {
      assert (t + [s[0]]) + s[1..] == t + s;
      BodyGoesOn(head, length, t + [s[0]], s[1..], lim);
    }
  }

  lemma BodyRead(r: Reading, lim: Limits)
    requires r.Body? && Valid(r, lim)
    ensures Run(START, TextOf(r), lim) == Step(After(r), Came(r))
  {
    hide Run, HeadSection, GoodHead, EndOfHeaders, ListsChunked, Declares;
    var h := EndAt(r.m, r.lines);
    SectionRead(r.m, r.lines, lim);
    HeadersLead(h, r.length, lim);
    BodyGoesOn(h, r.length, "", r.text, lim);
    assert "" + r.text == r.text;
    Then(START, HeadSection(r.m, r.lines), InBody(h, r.length, ""), r.text, lim);
  }

  lemma ChunkedSoFarRead(m: Message, lines: seq<Line>, chunks: seq<Chunk>, lim: Limits)
    requires ChunkedHead(m, lines, chunks, lim)
    ensures Run(START, ChunkedSoFar(m, lines, chunks), lim)
            == Step(InChunkSize(HeadBehind(EndAt(m, lines), chunks), ""), ChunkMessages(HeadOf(m), chunks))
  {
    hide Run, HeadSection, GoodHead, EndOfHeaders, ListsChunked, ChunksText, GoodChunks, ChunkMessages;
    var h := EndAt(m, lines);
    SectionRead(m, lines, lim);
    HeadersLead(h, 0, lim);
    ReadChunks(h, chunks, lim);
    BytesDoNotShow(h, HeadOf(m), chunks);
    Then(START, HeadSection(m, lines), InChunkSize(h, ""), ChunksText(chunks), lim);
  }

  /** More bytes of a chunked body. */
  lemma MoreRead(m: Message, lines: seq<Line>, chunks: seq<Chunk>, text: string, q: Parser, more: seq<Message>,
                 lim: Limits)
    requires ChunkedHead(m, lines, chunks, lim)
    requires Run(InChunkSize(HeadBehind(EndAt(m, lines), chunks), ""), text, lim) == Step(q, more)
    ensures Run(START, ChunkedSoFar(m, lines, chunks) + text, lim) == Step(q, ChunkMessages(HeadOf(m), chunks) + more)
  {
    hide Run, ChunkedSoFar, ChunkMessages, ChunkedHead;
    ChunkedSoFarRead(m, lines, chunks, lim);
    Follow(START, ChunkedSoFar(m, lines, chunks), InChunkSize(HeadBehind(EndAt(m, lines), chunks), ""),
           ChunkMessages(HeadOf(m), chunks), text, lim);
  }

  lemma SizeOfRead(r: Reading, lim: Limits)
    requires r.SizeOf? && Valid(r, lim)
    ensures Run(START, TextOf(r), lim) == Step(After(r), Came(r))
  {
    hide Run, ChunkedSoFar, ChunkedHead, ChunkMessages, SizeByte;
    SizeBytesRead(HeadBehind(EndAt(r.m, r.lines), r.chunks), "", r.text, lim);
    assert "" + r.text == r.text;
    MoreRead(r.m, r.lines, r.chunks, r.text, After(r), [], lim);
    assert Came(r) + [] == Came(r);
  }

  lemma {:induction false} DataGoesOn(head: Head, length: int, t: string, s: string, lim: Limits)
    requires |t| + |s| < length && (s == "" || |t| + |s| <= lim.bodySize)
    ensures Run(InChunk(head, length, t), s, lim) == Silent(InChunk(head, length, t + s))
    decreases |s|
  {
    if s == "" {
      assert t + s == t;
    } else {
      assert (t + [s[0]]) + s[1..] == t + s;
      DataGoesOn(head, length, t + [s[0]], s[1..], lim);
    }
  }

  lemma DataRead(r: Reading, lim: Limits)
    requires r.Data? && Valid(r, lim)
    ensures Run(START, TextOf(r), lim) == Step(After(r), Came(r))
  {
    hide Run, ChunkedSoFar, ChunkedHead, ChunkMessages, SizeLine, SizeIs;
    var h := HeadBehind(EndAt(r.m, r.lines), r.chunks);
    ReadSize(h, r.size, r.length, lim);
    DataGoesOn(h, r.length, "", r.text, lim);
    assert "" + r.text == r.text;
    Then(InChunkSize(h, ""), SizeLine(r.size), InChunk(h, r.length, ""), r.text, lim);
    MoreRead(r.m, r.lines, r.chunks, SizeLine(r.size) + r.text, After(r), [], lim);
    Associate(ChunkedSoFar(r.m, r.lines, r.chunks), SizeLine(r.size), r.text);
    assert Came(r) + [] == Came(r);
  }

  /** A part of a line break behind a chunk or the last size line. */
  lemma PartRead(p: Parser, text: string, lim: Limits)
    requires (p.InChunkEnd? || p.InLastLine?) && p.text == "" && PartOfBreak(text)
    ensures Run(p, text, lim) == Silent(p.(text := text))
  {
    if text == "" {
      NothingRead(p, lim);
    } else {
      OneByte(p, text[0], lim);
      assert text == [text[0]];
    }
  }

  lemma ChunkEndRead(r: Reading, lim: Limits)
    requires r.ChunkEnd? && Valid(r, lim)
    ensures Run(START, TextOf(r), lim) == Step(After(r), Came(r))
  {
    hide Run, ChunkedSoFar, ChunkedHead, ChunkMessages, SizeLine, GoodChunk, PartOfBreak;
    var h := HeadBehind(EndAt(r.m, r.lines), r.chunks);
    var text, q := SizeLine(r.chunk.size) + r.chunk.data, InChunkEnd(WithoutHeaders(h), "");
    ReadData(h, r.chunk, lim);
    PartRead(q, r.text, lim);
    Follow(InChunkSize(h, ""), text, q, [Finished(h, r.chunk.data)], r.text, lim);
    MoreRead(r.m, r.lines, r.chunks, text + r.text, After(r), [Finished(h, r.chunk.data)], lim);
    Associate(ChunkedSoFar(r.m, r.lines, r.chunks), text, r.text);
  }

  lemma LastLineRead(r: Reading, lim: Limits)
    requires r.LastLine? && Valid(r, lim)
    ensures Run(START, TextOf(r), lim) == Step(After(r), Came(r))
  {
    hide Run, ChunkedSoFar, ChunkedHead, ChunkMessages, SizeLine, SizeIs, PartOfBreak;
    var h := HeadBehind(EndAt(r.m, r.lines), r.chunks);
    ReadSize(h, r.last, 0, lim);
    PartRead(InLastLine(h, ""), r.text, lim);
    Then(InChunkSize(h, ""), SizeLine(r.last), InLastLine(h, ""), r.text, lim);
    MoreRead(r.m, r.lines, r.chunks, SizeLine(r.last) + r.text, After(r), [], lim);
    Associate(ChunkedSoFar(r.m, r.lines, r.chunks), SizeLine(r.last), r.text);
    assert Came(r) + [] == Came(r);
  }

  lemma ReadingRead(r: Reading, lim: Limits)
    requires Valid(r, lim)
    ensures Run(START, TextOf(r), lim) == Step(After(r), Came(r))
  {
    hide Run, HeadText, ChunkMessages;
    match r
    case Word(_) => WordRead(r, lim);
    case StatusLine(version, text) => StatusRead(version, text, lim);
    case ReasonLine(_, _, _) => ReasonRead(r, lim);
    case Target(_, _) => TargetRead(r, lim);
    case VersionWord(_, _, _) => VersionWordRead(r, lim);
    case Name(_, _, _) => NameRead(r, lim);
    case Value(_, _, _, _) => ValueRead(r, lim);
    case Body(_, _, _, _) => BodyRead(r, lim);
    case SizeOf(_, _, _, _) => SizeOfRead(r, lim);
    case Data(_, _, _, _, _, _) => DataRead(r, lim);
    case ChunkEnd(_, _, _, _, _) => ChunkEndRead(r, lim);
    case LastLine(_, _, _, _, _) => LastLineRead(r, lim);
  }

  // ---------------------------------------------------------------------- whole streams

  lemma ByteLeads(r: Reading, c: char, lim: Limits) returns (out: Outcome)
    requires Valid(r, lim)
    ensures LeadsTo(r, c, out, lim)
  {
    hide Valid, LeadsTo;
    match r
    case Word(_) => out := WordByte(r, c, lim);
    case StatusLine(_, _) => out := StatusByte(r, c, lim);
    case ReasonLine(_, _, _) => out := StatusByte(r, c, lim);
    case Target(_, _) => out := TargetByte(r, c, lim);
    case VersionWord(_, _, text) =>
      if |text| > 1 && c == '\n' && EndsWithCr(text) {
        out := RequestLineEnds(r, lim);
      } else {
        out := VersionWordByte(r, c, lim);
      }
    case Name(_, _, text) =>
      if c == ':' {
        out := ColonReads(r, lim);
      } else if c == '\n' && text == "\r" {
        out := BlankLineReads(r, lim);
      } else {
        out := NameByte(r, c, lim);
      }
    case Value(_, _, _, text) =>
      if c == '\n' && EndsWithCr(text) {
        out := LineEnds(r, lim);
      } else {
        out := ValueByte(r, c, lim);
      }
    case Body(_, _, _, _) => out := BodyByte(r, c, lim);
    case SizeOf(_, _, _, text) =>
      if c == '\n' && EndsWithCr(text) {
        out := SizeLineEnds(r, lim);
      } else {
        out := SizeOfByte(r, c, lim);
      }
    case Data(_, _, _, _, length, text) =>
      if |text| + 1 == length {
        out := DataEnds(r, c, lim);
      } else {
        out := DataByte(r, c, lim);
      }
    case ChunkEnd(_, _, _, _, _) => out := ChunkEndByte(r, c, lim);
    case LastLine(_, _, _, _, _) => out := LastLineByte(r, c, lim);
  }

  /** The stream is whole requests and then one under way. */
  ghost predicate ReadsAs(s: string, xs: seq<Exchange>, r: Reading, lim: Limits) {
    AllGood(xs, lim) && Valid(r, lim) && s == AllSent(xs) + TextOf(r)
  }

  ghost predicate Readable(s: string, lim: Limits) {
    exists xs, r :: ReadsAs(s, xs, r, lim)
  }

  lemma ReadsAsRun(s: string, xs: seq<Exchange>, r: Reading, lim: Limits)
    requires ReadsAs(s, xs, r, lim)
    ensures Run(START, s, lim) == Step(After(r), AllDue(xs) + Came(r)) && !After(r).Failed?
  {
    hide Run, AllGood, Valid, TextOf, Came, AllSent, AllDue;
    ExchangesRead(xs, lim);
    ReadingRead(r, lim);
    Follow(START, AllSent(xs), START, AllDue(xs), TextOf(r), lim);
  }

  lemma OneMore(xs: seq<Exchange>, x: Exchange, lim: Limits)
    requires AllGood(xs, lim) && Good(x, lim)
    ensures AllGood(xs + [x], lim)
    ensures AllSent(xs + [x]) == AllSent(xs) + Sent(x) && AllDue(xs + [x]) == AllDue(xs) + Due(x)
  {
    hide Good, Sent, Due;
    var all := xs + [x];
    assert all[..|all| - 1] == xs && all[|all| - 1] == x;
  }

  /** One more byte of a stream that reads. */
  lemma ByteReadsAs(s: string, c: char, xs: seq<Exchange>, r: Reading, lim: Limits)
    returns (ys: seq<Exchange>, q: Reading)
    requires ReadsAs(s, xs, r, lim)
    ensures Run(START, s + [c], lim).next.Failed? ==> Run(START, s + [c], lim).messages == AllDue(xs) + Came(r)
    ensures !Run(START, s + [c], lim).next.Failed? ==> ReadsAs(s + [c], ys, q, lim)
  {
    hide Run, Consume, AllGood, Valid, TextOf, Came, AllSent, AllDue, Good, Sent, Due, After;
    ReadsAsRun(s, xs, r, lim);
    var out := ByteLeads(r, c, lim);
    OneByte(After(r), c, lim);
    Follow(START, s, After(r), AllDue(xs) + Came(r), [c], lim);
    ys, q := xs, r;
    assert AllDue(xs) + Came(r) + [] == AllDue(xs) + Came(r);
    match out
    case Refused =>
    case Continues(next) =>
      q := next;
      Associate(AllSent(xs), TextOf(r), [c]);
      ReadsAsRun(s + [c], xs, q, lim);
    case Completes(x) =>
      OneMore(xs, x, lim);
      ys, q := xs + [x], Word("");
      Associate(AllSent(xs), TextOf(r), [c]);
      EmptyWord(s + [c], lim);
  }

  lemma EmptyWord(s: string, lim: Limits)
    ensures Valid(Word(""), lim) && TextOf(Word("")) == "" && s + "" == s
    ensures After(Word("")) == START && Came(Word("")) == []
  {
  }

  /** As far as a stream is taken, it reads, and what came out is what is due for that. */
  lemma {:induction false} LongestReads(s: string, lim: Limits) returns (n: nat, xs: seq<Exchange>, r: Reading)
    ensures n <= |s| && ReadsAs(s[..n], xs, r, lim)
    ensures Run(START, s, lim).messages == AllDue(xs) + Came(r)
    ensures Run(START, s, lim).next.Failed? <==> n < |s|
    ensures n < |s| ==> Run(START, s[..n + 1], lim).next.Failed?
    decreases |s|
  {
    hide Run, ReadsAs, Came, After;
    if s == "" {
      n, xs, r := 0, [], Word("");
      NothingReads(lim);
    } else {
      var t, c := s[..|s| - 1], s[|s| - 1];
      assert s == t + [c];
      n, xs, r := LongestReads(t, lim);
      assert s[..n] == t[..n];
      if n < |t| {
        assert s[..n + 1] == t[..n + 1];
        RunAppend(START, t, [c], lim);
        FailedStays([c], lim);
        assert AllDue(xs) + Came(r) + [] == AllDue(xs) + Came(r);
      } else {
        assert t[..n] == t;
        var ys, q := ByteReadsAs(t, c, xs, r, lim);
        if Run(START, s, lim).next.Failed? {
          assert s[..n + 1] == s;
        } else {
          n, xs, r := |s|, ys, q;
          assert s[..n] == s;
          ReadsAsRun(s, xs, r, lim);
        }
      }
    }
  }

  lemma NothingReads(lim: Limits)
    ensures ReadsAs("", [], Word(""), lim) && Run(START, "", lim) == Silent(START)
    ensures AllDue([]) + Came(Word("")) == [] && ""[..0] == ""
  {
  }

  /** The language of the assembler: a stream is refused if and only if it is not whole requests and then
      one under way; and whenever it is, what comes out is what is due for these requests and for
      what has come of the last, and the state is what the last leads to. */
  lemma StreamExactly(s: string, lim: Limits)
    ensures !Run(START, s, lim).next.Failed? <==> Readable(s, lim)
    ensures forall xs, r :: ReadsAs(s, xs, r, lim) ==>
              Run(START, s, lim) == Step(After(r), AllDue(xs) + Came(r))
  {
    hide Run, ReadsAs, After, Came, AllDue;
    forall xs, r | ReadsAs(s, xs, r, lim)
      ensures Run(START, s, lim) == Step(After(r), AllDue(xs) + Came(r)) && !After(r).Failed?
    {
      ReadsAsRun(s, xs, r, lim);
    }
    if !Run(START, s, lim).next.Failed? {
      var n, xs, r := LongestReads(s, lim);
      assert s[..n] == s;
    }
  }

  /** Behind `n` bytes comes one with which no request goes on. */
  ghost predicate StopsAt(s: string, n: nat, lim: Limits)
    requires n < |s|
  {
    Readable(s[..n], lim) && !Readable(s[..n + 1], lim)
  }

  lemma StoppedThere(s: string, n: nat, lim: Limits)
    requires n < |s| && StopsAt(s, n, lim)
    ensures Run(START, s, lim) == Step(Failed, Run(START, s[..n], lim).messages)
  {
    hide Run, ReadsAs, Came, AllDue;
    var t, c, rest := s[..n], s[n], s[n + 1..];
    assert s[..n + 1] == t + [c] && s == (t + [c]) + rest;
    StreamExactly(t, lim);
    StreamExactly(t + [c], lim);
    var xs, r :| ReadsAs(t, xs, r, lim);
    var _, _ := ByteReadsAs(t, c, xs, r, lim);
    RunAppend(START, t + [c], rest, lim);
    FailedStays(rest, lim);
    assert Run(START, t, lim).messages + [] == Run(START, t, lim).messages;
  }

  /** A stream is refused at the byte with which no request goes on, and what was due by then has come
      out. */
  lemma RefusedExactly(s: string, lim: Limits)
    ensures Run(START, s, lim).next.Failed? <==> exists n :: 0 <= n < |s| && StopsAt(s, n, lim)
    ensures forall n :: 0 <= n < |s| && StopsAt(s, n, lim) ==>
              Run(START, s, lim).messages == Run(START, s[..n], lim).messages
  {
    hide Run, ReadsAs, Came, AllDue;
    forall n | 0 <= n < |s| && StopsAt(s, n, lim)
      ensures Run(START, s, lim) == Step(Failed, Run(START, s[..n], lim).messages)
    {
      StoppedThere(s, n, lim);
    }
    var n, xs, r := LongestReads(s, lim);
    if n < |s| {
      StreamExactly(s[..n + 1], lim);
      assert StopsAt(s, n, lim);
    }
  }

  lemma AtStart(r: Reading, lim: Limits)
    requires Valid(r, lim) && After(r) == START
    ensures TextOf(r) == "" && Came(r) == []
  {
  }

  /** What leaves the parser as it was before is whole requests, and what comes out is what is due for
      them. */
  lemma WholeExactly(s: string, messages: seq<Message>, lim: Limits)
    ensures Run(START, s, lim) == Step(START, messages)
            <==> exists xs :: AllGood(xs, lim) && s == AllSent(xs) && messages == AllDue(xs)
  {
    hide Run, AllGood, Valid, After, TextOf, Came, AllSent, AllDue;
    if Run(START, s, lim) == Step(START, messages) {
      StreamExactly(s, lim);
      var xs, r :| ReadsAs(s, xs, r, lim);
      AtStart(r, lim);
      assert AllSent(xs) + "" == AllSent(xs) && AllDue(xs) + [] == AllDue(xs);
    }
    if xs :| AllGood(xs, lim) && s == AllSent(xs) && messages == AllDue(xs) {
      ExchangesRead(xs, lim);
    }
  }
}
