/** What the limits guarantee of every message that the buffered assembler brings out, on every
    stream, whether or not its lines fit (src/networking/http/HttpAssembler.cpp). */
module ResourceBounds {
  import opened Text
  import opened Http
  import P = StreamParser
  import opened BoundedParser
  import opened Transparency
  import opened RequestRoundTrip
  import opened Framing

  // ------------------------------------------------------------ sizes of headers

  /** The bytes of all names and values. */
  ghost function TotalSize(headers: Headers): nat
    decreases |headers|
  {
    if headers == map[] then 0
    else
      var name :| name in headers;
      |name| + |headers[name]| + TotalSize(headers - {name})
  }

  /** Any header may be counted first. */
  lemma {:induction false} TotalSizeRemove(headers: Headers, name: string)
    requires name in headers
    ensures TotalSize(headers) == |name| + |headers[name]| + TotalSize(headers - {name})
    decreases |headers|
  {
    var first :| first in headers && TotalSize(headers) == |first| + |headers[first]| + TotalSize(headers - {first});
    if first != name {
      TotalSizeRemove(headers - {first}, name);
      TotalSizeRemove(headers - {name}, first);
      assert headers - {first} - {name} == headers - {name} - {first};
    }
  }

  lemma TotalSizeEmplace(headers: Headers, name: string, value: string)
    ensures TotalSize(P.Emplace(headers, name, value)) <= TotalSize(headers) + |name| + |value|
  {
    if name !in headers {
      var more := headers[name := value];
      TotalSizeRemove(more, name);
      assert more - {name} == headers;
    }
  }

  // ---------------------------------------------------------------- the invariant

  predicate LineWithin(verb: Method, uri: string, lim: P.Limits) {
    LineLength(verb, uri) <= lim.requestLine + 1
  }

  /** How many bytes of a header line are live. */
  function LineBytes(m: Machine): int {
    |m.held| - Needed(m)
  }

  /** The request line and the header section have kept to their limits, but for the byte that may end
      them, and what is stored and live of the header section has been counted. */
  ghost predicate Modest(m: Machine, lim: P.Limits)
    requires Ordered(m)
  {
    match m.phase
    case ParseRequestUri =>
      m.count == |MethodName(m.verb)| + 1 + |m.Token()| && (m.Token() == "" || m.count <= lim.requestLine)
    case ParseRequestHttpVersion =>
      m.count == |MethodName(m.verb)| + 1 + |m.uri| + 1 + |m.Token()| && (m.Token() == "" || m.count <= lim.requestLine)
    case ParseHeaderName => HeaderModest(m, lim)
    case ParseHeaderValue => HeaderModest(m, lim)
    case ParseBody => HeadModest(m, lim)
    case ParseChunkSize => HeadModest(m, lim)
    case ParseChunk => HeadModest(m, lim)
    case ParseChunkSkipLine => HeadModest(m, lim)
    case ParseEndOfChunkedRequest => HeadModest(m, lim)
    case _ => true
  }

  ghost predicate HeaderModest(m: Machine, lim: P.Limits)
    requires Ordered(m)
  {
    && LineWithin(m.verb, m.uri, lim)
    && (m.headerBytes == 0 || m.headerBytes <= lim.headerBytes + 1)
    && (m.Token() == "" || m.headerBytes <= lim.headerBytes)
    && TotalSize(m.headers) + LineBytes(m) <= m.headerBytes
  }

  ghost predicate HeadModest(m: Machine, lim: P.Limits) {
    && LineWithin(m.verb, m.uri, lim)
    && TotalSize(m.headers) <= m.headerBytes <= lim.headerBytes + 1
  }

  /** The bounds of one message. */
  ghost predicate WithinBounds(msg: Message, lim: P.Limits) {
    && |RequestLine(msg)| <= lim.requestLine + 1
    && TotalSize(msg.headers) <= lim.headerBytes + 1
    && WithinBody(msg.body, lim)
  }

  ghost predicate StepWithin(o: P.Step<Machine>, lim: P.Limits) {
    && Ordered(o.next) && Modest(o.next, lim)
    && forall k :: 0 <= k < |o.messages| ==> WithinBounds(o.messages[k], lim)
  }

  lemma MessageWithin(m: Machine, body: string, lim: P.Limits)
    requires HeadModest(m, lim) && WithinBody(body, lim)
    ensures WithinBounds(m.Finish(body), lim)
  {
    hide TotalSize;
    LineLengthIs(m.Finish(body));
  }

  // --------------------------------------------------------------------- one byte

  lemma FirstWordWithin(m: Machine, c: char, cfg: Config)
    requires Ready(m, cfg) && Modest(m, cfg.limits) && m.phase == ParseResponseOrRequest
    ensures StepWithin(Byte(m, c, cfg.limits), cfg.limits)
  {
    hide VersionOf, TotalSize;
    if ParseMethod(m.Token()) != INVALID {
      MethodTable(m.Token(), ParseMethod(m.Token()));
    }
    hide ParseMethod, MethodName;
  }

  lemma LineWithinByte(m: Machine, c: char, cfg: Config)
    requires Ready(m, cfg) && Modest(m, cfg.limits)
    requires m.phase in {ParseResponseStatus, ParseResponseHeadersStart, ParseRequestUri}
    ensures StepWithin(Byte(m, c, cfg.limits), cfg.limits)
  {
    hide MethodByte, VersionByte, HeaderNameByte, HeaderValueByte, ChunkSizeByte, BodyByte, ChunkByte;
    hide MethodName, TotalSize, LineLength, BodyAccount;
    TokenExtends(m, c);
  }

  lemma VersionWithin(m: Machine, c: char, cfg: Config)
    requires Ready(m, cfg) && Modest(m, cfg.limits) && m.phase == ParseRequestHttpVersion
    ensures StepWithin(Byte(m, c, cfg.limits), cfg.limits)
  {
    assert TotalSize(map[]) == 0;
    hide MethodByte, StatusByte, UriByte, HeaderNameByte, HeaderValueByte, ChunkSizeByte, BodyByte, ChunkByte;
    hide MethodName, TotalSize, BodyAccount;
    TokenExtends(m, c);
  }

  lemma NameWithin(m: Machine, c: char, cfg: Config)
    requires Ready(m, cfg) && Modest(m, cfg.limits) && m.phase == ParseHeaderName
    requires c != ':' && !(c == '\n' && m.Token() == "\r")
    ensures StepWithin(Byte(m, c, cfg.limits), cfg.limits)
  {
    hide TotalSize, HeadersDone, LineLength, TrimLeft, BodyAccount, MethodByte, StatusByte, UriByte, VersionByte;
    hide HeaderValueByte, BodyByte, ChunkSizeByte, ChunkByte;
  }

  lemma ColonWithin(m: Machine, cfg: Config)
    requires Ready(m, cfg) && Modest(m, cfg.limits) && m.phase == ParseHeaderName
    ensures StepWithin(Byte(m, ':', cfg.limits), cfg.limits)
  {
    NameSlice(m, ':');
    assert TrimLeft(m.Token()) != "" ==> m.Token() != "";
    hide TotalSize, HeadersDone, LineLength, TrimLeft, BodyAccount, MethodByte, StatusByte, UriByte, VersionByte;
    hide HeaderValueByte, BodyByte, ChunkSizeByte, ChunkByte;
  }

  lemma BlankLineWithin(m: Machine, c: char, cfg: Config)
    requires Ready(m, cfg) && Modest(m, cfg.limits) && m.phase == ParseHeaderName && c == '\n' && m.Token() == "\r"
    ensures StepWithin(Byte(m, c, cfg.limits), cfg.limits)
  {
    var n := m.(count := m.count + 1, headerBytes := m.headerBytes + 1);
    ByteOrdered(m, c, cfg);
    BlankLineByte(m, c, cfg.limits);
    MessageWithin(n, "", cfg.limits);
    hide Byte, P.IsChunked, P.ParseNumber, TotalSize, LineLength, WithinBounds;
  }

  lemma ValueWithin(m: Machine, c: char, cfg: Config)
    requires Ready(m, cfg) && Modest(m, cfg.limits) && m.phase == ParseHeaderValue
    requires !(c == '\n' && P.EndsWithCr(m.Token()))
    ensures StepWithin(Byte(m, c, cfg.limits), cfg.limits)
  {
    hide MethodByte, StatusByte, UriByte, VersionByte, HeaderNameByte, ChunkSizeByte, BodyByte, ChunkByte;
    hide TrimLeft, TotalSize, LineLength, ToLower, BodyAccount, P.Emplace;
  }

  lemma StoredSize(headers: Headers, name: string, text: string)
    requires P.EndsWithCr(text)
    ensures TotalSize(P.Emplace(headers, ToLower(name), TrimLeft(P.Front(text)))) < TotalSize(headers) + |name| + |text|
  {
    var value := TrimLeft(P.Front(text));
    TrimLeftFacts(P.Front(text));
    TotalSizeEmplace(headers, ToLower(name), value);
    assert |ToLower(name)| == |name|;
  }

  lemma ValueEndWithin(m: Machine, cfg: Config)
    requires Ready(m, cfg) && Modest(m, cfg.limits) && m.phase == ParseHeaderValue && P.EndsWithCr(m.Token())
    ensures StepWithin(Byte(m, '\n', cfg.limits), cfg.limits)
  {
    StoredSize(m.headers, m.Name(), m.Token());
    hide MethodByte, StatusByte, UriByte, VersionByte, HeaderNameByte, ChunkSizeByte, BodyByte, ChunkByte;
    hide TrimLeft, TotalSize, LineLength, ToLower, BodyAccount, P.Emplace, P.Front;
    TokenExtends(m, '\n');
  }

  lemma BodyWithin(m: Machine, c: char, cfg: Config)
    requires Ready(m, cfg) && Modest(m, cfg.limits) && m.phase == ParseBody
    ensures StepWithin(Byte(m, c, cfg.limits), cfg.limits)
  {
    ByteOrdered(m, c, cfg);
    var body := m.body + m.Token() + [c];
    if |body| <= cfg.limits.bodySize {
      MessageWithin(m.(count := m.count + 1), body, cfg.limits);
    }
    hide TotalSize, LineLength, WithinBounds;
  }

  lemma ChunkWithin(m: Machine, c: char, cfg: Config)
    requires Ready(m, cfg) && Modest(m, cfg.limits) && m.phase == ParseChunk
    requires cfg.limits.bodyMemory <= cfg.limits.bodySize
    ensures StepWithin(Byte(m, c, cfg.limits), cfg.limits)
  {
    ByteOrdered(m, c, cfg);
    MessageWithin(m.(count := m.count + 1), m.body + m.Token() + [c], cfg.limits);
    assert TotalSize(map[]) == 0;
    hide TotalSize, LineLength, WithinBounds;
  }

  lemma ChunkSizeWithin(m: Machine, c: char, cfg: Config)
    requires Ready(m, cfg) && Modest(m, cfg.limits) && m.phase == ParseChunkSize
    ensures StepWithin(Byte(m, c, cfg.limits), cfg.limits)
  {
    hide MethodByte, StatusByte, UriByte, VersionByte, HeaderNameByte, HeaderValueByte, BodyByte, ChunkByte;
    hide TotalSize, LineLength, WithinBounds, BodyAccount, FromChars;
  }

  lemma ChunkEndWithin(m: Machine, c: char, cfg: Config)
    requires Ready(m, cfg) && Modest(m, cfg.limits) && m.phase == ParseChunkSkipLine
    ensures StepWithin(Byte(m, c, cfg.limits), cfg.limits)
  {
    hide MethodByte, StatusByte, UriByte, VersionByte, HeaderNameByte, HeaderValueByte, BodyByte, ChunkByte;
    hide TotalSize, LineLength, WithinBounds, BodyAccount, ChunkSizeByte;
  }

  lemma LastLineWithin(m: Machine, c: char, cfg: Config)
    requires Ready(m, cfg) && Modest(m, cfg.limits) && m.phase == ParseEndOfChunkedRequest
    ensures StepWithin(Byte(m, c, cfg.limits), cfg.limits)
  {
    MessageWithin(m.(count := m.count + 1), "", cfg.limits);
    hide MethodByte, StatusByte, UriByte, VersionByte, HeaderNameByte, HeaderValueByte, BodyByte, ChunkByte;
    hide TotalSize, LineLength, WithinBounds, BodyAccount, ChunkSizeByte;
  }

  lemma ByteWithinBounds(m: Machine, c: char, cfg: Config)
    requires Ready(m, cfg) && Modest(m, cfg.limits) && cfg.limits.bodyMemory <= cfg.limits.bodySize
    ensures StepWithin(Byte(m, c, cfg.limits), cfg.limits)
  {
    if m.phase != Error {
      hide Byte, Sound, Modest, StepWithin;
      match m.phase {
        case ParseResponseOrRequest => FirstWordWithin(m, c, cfg);
        case ParseHeaderName =>
          if c == '\n' && m.Token() == "\r" {
            BlankLineWithin(m, c, cfg);
          } else if c == ':' {
            ColonWithin(m, cfg);
          } else {
            NameWithin(m, c, cfg);
          }
        case ParseRequestHttpVersion => VersionWithin(m, c, cfg);
        case ParseHeaderValue =>
          if c == '\n' && P.EndsWithCr(m.Token()) {
            ValueEndWithin(m, cfg);
          } else {
            ValueWithin(m, c, cfg);
          }
        case ParseBody => BodyWithin(m, c, cfg);
        case ParseChunk => ChunkWithin(m, c, cfg);
        case ParseChunkSize => ChunkSizeWithin(m, c, cfg);
        case ParseChunkSkipLine => ChunkEndWithin(m, c, cfg);
        case ParseEndOfChunkedRequest => LastLineWithin(m, c, cfg);
        case _ => LineWithinByte(m, c, cfg);
      }
    }
  }

  // ------------------------------------------------------------------ whole streams

  /** The full-buffer step may damage what is read, but not what is counted. */
  lemma FullWithin(m: Machine, cfg: Config)
    requires Sound(m, cfg) && IsFull(m, cfg) && Modest(m, cfg.limits)
    ensures Ordered(Full(m, cfg.compaction)) && Modest(Full(m, cfg.compaction), cfg.limits)
  {
    FullReady(m, cfg);
    hide Moved, TotalSize, LineLength, BodyAccount;
  }

  lemma NextWithin(m: Machine, c: char, cfg: Config)
    requires Ready(m, cfg) && Modest(m, cfg.limits) && cfg.limits.bodyMemory <= cfg.limits.bodySize
    ensures StepWithin(Next(m, c, cfg), cfg.limits)
  {
    hide Byte, Full, Modest, WithinBounds, Sound, Meaning, P.Consume;
    ByteFollows(m, c, cfg);
    ByteWithinBounds(m, c, cfg);
    var o := Byte(m, c, cfg.limits);
    if IsFull(o.next, cfg) {
      FullWithin(o.next, cfg);
    }
  }

  /** Resource bounds, for every message of every stream, whatever the buffer and whichever length the
      compaction moves: the request line is at most its limit and one byte, all names and values that
      are stored together are no more than the header limit and one byte, and the body is at most its
      own limit. */
  lemma {:induction false} EveryMessageWithinBounds(m: Machine, input: string, cfg: Config)
    requires Ready(m, cfg) && Modest(m, cfg.limits) && cfg.limits.bodyMemory <= cfg.limits.bodySize
    ensures var r := Run(m, input, cfg);
            && Modest(r.next, cfg.limits)
            && forall k :: 0 <= k < |r.messages| ==> WithinBounds(r.messages[k], cfg.limits)
    decreases |input|
  {
    hide Next, Ready, Modest, WithinBounds;
    if input != "" {
      NextWithin(m, input[0], cfg);
      EveryMessageWithinBounds(Next(m, input[0], cfg).next, input[1..], cfg);
    }
  }

  lemma InitialModest(lim: P.Limits)
    ensures Modest(INITIAL, lim)
  {
  }

  /** While no full-buffer step loses anything, the head of each message stands in the stream, within
      its limits. */
  lemma HeadsStandInStream(input: string, cfg: Config)
    requires 0 < cfg.capacity && Ready(INITIAL, cfg) && NeverLoses(INITIAL, input, cfg)
    requires cfg.limits.bodyMemory <= cfg.limits.bodySize
    ensures var messages := Run(INITIAL, input, cfg).messages;
            forall k :: 0 <= k < |messages| ==> Bounded(input, messages[k], cfg.limits)
  {
    hide Run, P.Run, NeverLoses, Bounded;
    InitialReady(cfg);
    TransparentUnlessLost(INITIAL, input, cfg);
    EmittedWithinLimits(input, cfg.limits);
  }
}
