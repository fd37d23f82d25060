/** The grammar the assembler follows (sections 3, 5, 6.3 and 7.1 of RFC 9112), read one byte at
    a time with no buffer and no positions: every state keeps the text it is reading. This is
    the reference the buffered assembler is held to. */
module StreamParser {
  import opened Text
  import opened Utils
  import opened Http

  /** The adjustable limits of the assembler. */
  datatype Limits = Limits(requestLine: int32, headerBytes: int32, bodyMemory: int32, bodySize: int32)

  /** What is known of a request once its request line is read; `bytes` counts its header section. */
  datatype Head = Head(version: Version, verb: Method, uri: string, headers: Headers, bytes: nat)

  datatype Parser =
    | InMethod(text: string)
    | InStatus(count: nat, text: string)
    | InReason(count: nat)
    | InUri(verb: Method, count: nat, text: string)
    | InVersion(verb: Method, uri: string, count: nat, text: string)
    | InHeaderName(head: Head, text: string)
    | InHeaderValue(head: Head, indent: nat, name: string, text: string)
    | InBody(head: Head, length: int, text: string)
    | InChunkSize(head: Head, text: string)
    | InChunk(head: Head, length: int, text: string)
    | InChunkEnd(head: Head, text: string)
    | InLastLine(head: Head, text: string)
    | Failed

  const START := InMethod("")

  /** A next state and the messages completed on the way to it. */
  datatype Step<S> = Step(next: S, messages: seq<Message>)

  function Silent<S>(next: S): Step<S> {
    Step(next, [])
  }

  function Finished(h: Head, body: string): Message {
    Message(h.version, h.verb, h.uri, h.headers, body)
  }

  predicate EndsWithCr(text: string) {
    text != "" && text[|text| - 1] == '\r'
  }

  function Front(text: string): string
    requires text != ""
  {
    text[..|text| - 1]
  }

  predicate IsChunked(headers: Headers) {
    "transfer-encoding" in headers && "chunked" in Elements(headers["transfer-encoding"])
  }

  /** `parseNumber`: a number, in quotes or not. */
  function ParseNumber(s: string): Option<int32> {
    if |s| > 2 && s[0] == '"' && s[|s| - 1] == '"' then FromChars(s[1..|s| - 1], 10) else FromChars(s, 10)
  }

  function Consume(p: Parser, c: char, lim: Limits): Step<Parser> {
    match p
    case InMethod(text) => Silent(ConsumeMethod(text, c))
    case InStatus(count, text) => Silent(ConsumeStatus(count, text, c, lim))
    case InReason(count) => Silent(if count + 1 > lim.requestLine || !Ascii(c) then Failed else InReason(count + 1))
    case InUri(verb, count, text) => Silent(ConsumeUri(verb, count, text, c, lim))
    case InVersion(verb, uri, count, text) => Silent(ConsumeVersion(verb, uri, count, text, c, lim))
    case InHeaderName(head, text) => ConsumeHeaderName(head.(bytes := head.bytes + 1), text, c, lim)
    case InHeaderValue(head, indent, name, text) =>
      Silent(ConsumeHeaderValue(head.(bytes := head.bytes + 1), indent, name, text, c, lim))
    case InBody(head, length, text) => ConsumeBody(head, length, text + [c], lim)
    case InChunkSize(head, text) => Silent(ConsumeChunkSize(head, text, c, lim))
    case InChunk(head, length, text) => ConsumeChunk(head, length, text + [c], lim)
    case InChunkEnd(head, text) =>
      Silent(if text == "\r" && c == '\n' then InChunkSize(head, "")
             else if text == "" && (c == '\r' || c == '\n') then InChunkEnd(head, [c])
             else Failed)
    case InLastLine(head, text) =>
      if text == "\r" && c == '\n' then Step(START, [Finished(head, "")])
      else if text == "" && (c == '\r' || c == '\n') then Silent(InLastLine(head, [c]))
      else Silent(Failed)
    case Failed => Silent(Failed)
  }

  function ConsumeMethod(text: string, c: char): Parser {
    if c == ' ' && text != "" then
      if VersionOf(text) != NoVersion then InStatus(|text| + 1, "")
      else if ParseMethod(text) == INVALID then Failed
      else InUri(ParseMethod(text), |text| + 1, "")
    else if |text| + 1 > 8 || !Ascii(c) then Failed
    else InMethod(text + [c])
  }

  function ConsumeStatus(count: nat, text: string, c: char, lim: Limits): Parser {
    if c == ' ' then (if |text| == 3 then InReason(count + 1) else Failed)
    else if count + 1 > lim.requestLine || !IsDigit(c, 10) then Failed
    else InStatus(count + 1, text + [c])
  }

  function ConsumeUri(verb: Method, count: nat, text: string, c: char, lim: Limits): Parser {
    if c == ' ' then (if text == "" then Failed else InVersion(verb, text, count + 1, ""))
    else if count + 1 > lim.requestLine || !Ascii(c) then Failed
    else InUri(verb, count + 1, text + [c])
  }

  function ConsumeVersion(verb: Method, uri: string, count: nat, text: string, c: char, lim: Limits): Parser {
    if |text| > 1 && c == '\n' && EndsWithCr(text) then
      var version := VersionOf(Front(text));
      if version == NoVersion then Failed else InHeaderName(Head(version, verb, uri, map[], 0), "")
    else if count + 1 > lim.requestLine || !Ascii(c) then Failed
    else InVersion(verb, uri, count + 1, text + [c])
  }

  function ConsumeHeaderName(head: Head, text: string, c: char, lim: Limits): Step<Parser> {
    if c == ':' then
      var name := TrimLeft(text);
      Silent(if name == "" then Failed else InHeaderValue(head, |text| - |name|, name, ""))
    else if c == '\n' && text == "\r" then EndOfHeaders(head, lim)
    else if head.bytes > lim.headerBytes || !Ascii(c) then Silent(Failed)
    else Silent(InHeaderName(head, text + [c]))
  }

  /** How the body is delimited: chunks, a declared length, or no body at all. */
  function EndOfHeaders(head: Head, lim: Limits): Step<Parser> {
    if IsChunked(head.headers) then Silent(InChunkSize(head, ""))
    else if "content-length" in head.headers then
      match ParseNumber(head.headers["content-length"])
      case Some(n) => Silent(if n <= lim.bodySize then InBody(head, n, "") else Failed)
      case None => Silent(Failed)
    else Step(START, [Finished(head, "")])
  }

  function ConsumeHeaderValue(head: Head, indent: nat, name: string, text: string, c: char, lim: Limits): Parser {
    if c == '\n' && EndsWithCr(text) then
      var value := Front(text);
      if TrimLeft(value) == "" then Failed
      else InHeaderName(head.(headers := Emplace(head.headers, ToLower(name), TrimLeft(value))), "")
    else if head.bytes > lim.headerBytes || !Ascii(c) then Failed
    else InHeaderValue(head, indent, name, text + [c])
  }

  /** The first value of a repeated header stays. */
  function Emplace(headers: Headers, name: string, value: string): Headers {
    if name in headers then headers else headers[name := value]
  }

  function ConsumeBody(head: Head, length: int, text: string, lim: Limits): Step<Parser> {
    if |text| > lim.bodySize then Silent(Failed)
    else if |text| == length then Step(START, [Finished(head, text)])
    else Silent(InBody(head, length, text))
  }

  function ConsumeChunkSize(head: Head, text: string, c: char, lim: Limits): Parser {
    if c == '\n' && EndsWithCr(text) then
      match FromChars(Front(text), 16)
      case Some(n) =>
        if n > lim.bodyMemory then Failed
        else if n > 0 then InChunk(head, n, "")
        else InLastLine(head, "")
      case None => Failed
    else if IsDigit(c, 16) || c == '\r' then InChunkSize(head, text + [c])
    else Failed
  }

  /** A chunk is a message of its own. The headers go with the first one: the table is moved
      from, and a moved-from table is empty. */
  function ConsumeChunk(head: Head, length: int, text: string, lim: Limits): Step<Parser> {
    if |text| == length then Step(InChunkEnd(head.(headers := map[]), ""), [Finished(head, text)])
    else if |text| > lim.bodySize then Silent(Failed)
    else Silent(InChunk(head, length, text))
  }

  // ------------------------------------------------------------------------ runs

  function Run(p: Parser, input: string, lim: Limits): Step<Parser>
    decreases |input|
  {
    if input == "" then Silent(p)
    else
      var first := Consume(p, input[0], lim);
      var rest := Run(first.next, input[1..], lim);
      Step(rest.next, first.messages + rest.messages)
  }

  lemma {:induction false} RunAppend(p: Parser, a: string, b: string, lim: Limits)
    ensures var first := Run(p, a, lim);
            var second := Run(first.next, b, lim);
            Run(p, a + b, lim) == Step(second.next, first.messages + second.messages)
    decreases |a|
  {
    hide Consume;
    if a == "" {
      assert a + b == b;
    } else {
      assert (a + b)[1..] == a[1..] + b;
      RunAppend(Consume(p, a[0], lim).next, a[1..], b, lim);
    }
  }

  lemma OneByte(p: Parser, c: char, lim: Limits)
    ensures Run(p, [c], lim) == Consume(p, c, lim)
  {
    assert [c][1..] == "";
    var o := Consume(p, c, lim);
    assert o.messages + [] == o.messages;
  }

  lemma Then(p: Parser, a: string, q: Parser, b: string, lim: Limits)
    requires Run(p, a, lim) == Silent(q)
    ensures Run(p, a + b, lim) == Run(q, b, lim)
  {
    RunAppend(p, a, b, lim);
    var r := Run(q, b, lim);
    assert [] + r.messages == r.messages;
  }

  lemma {:induction false} FailedStays(input: string, lim: Limits)
    ensures Run(Failed, input, lim) == Silent(Failed)
  {
    if input != "" {
      FailedStays(input[1..], lim);
    }
  }
}
