/** The assembler's own account of one connection (src/networking/http/HttpAssembler.cpp:48-672):
    positions into the bytes it still holds, and what it does when they fill the buffer. One
    byte is one step, however the bytes arrive. */
module BoundedParser {
  import opened Text
  import opened Http
  import opened StreamParser

  datatype Phase =
    | ParseResponseOrRequest
    | ParseResponseStatus
    | ParseResponseHeadersStart
    | ParseRequestUri
    | ParseRequestHttpVersion
    | ParseHeaderName
    | ParseHeaderValue
    | ParseBody
    | ParseChunkSize
    | ParseChunkSkipLine
    | ParseChunk
    | ParseEndOfChunkedRequest
    | Error

  /** How much the compaction moves: `last_checkpoint` bytes, as the source is written, or the
      whole unfinished line, as its purpose asks. */
  datatype Compaction = AsWritten | WholeLine

  datatype Config = Config(limits: Limits, capacity: nat, compaction: Compaction)

  /** `HttpStreamState` with the consumed bytes `buffer[0..pos)` in `held`. `checkpoint` is -1
      or the position after the last completed line; it is not cleared between chunks. */
  datatype Machine = Machine(
    phase: Phase,
    held: string,
    start: nat,
    nameStart: nat,
    nameEnd: nat,
    count: nat,
    headerBytes: nat,
    checkpoint: int,
    bodyLength: int,
    chunkLength: int,
    version: Version,
    verb: Method,
    uri: string,
    headers: Headers,
    body: string)
  {
    function Token(): string
      requires start <= |held|
    {
      held[start..]
    }

    function Name(): string
      requires nameStart <= nameEnd <= |held|
    {
      held[nameStart..nameEnd]
    }

    function Finish(text: string): Message {
      Message(version, verb, uri, headers, text)
    }

    function Fail(): Machine {
      this.(phase := Error)
    }

    /** Enters `phase` with an empty token after the byte `c`. */
    function Enter(phase: Phase, c: char): Machine {
      this.(phase := phase, held := held + [c], start := |held| + 1)
    }

    /** Keeps reading the same token. */
    function Extend(c: char): Machine {
      this.(held := held + [c])
    }
  }

  const INITIAL := Machine(ParseResponseOrRequest, "", 0, 0, 0, 0, 0, -1, -1, 0, NoVersion, UNKNOWN, "", map[], "")

  // ------------------------------------------------------------------ one byte

  function Byte(m: Machine, c: char, lim: Limits): Step<Machine>
    requires Ordered(m)
  {
    if m.phase == Error then Silent(m) else
    var n := m.(count := m.count + 1);
    match m.phase
    case ParseResponseOrRequest => Silent(MethodByte(n, c))
    case ParseResponseStatus => Silent(StatusByte(n, c, lim))
    case ParseResponseHeadersStart =>
      Silent(if n.count > lim.requestLine || !Ascii(c) then n.Fail() else n.Extend(c))
    case ParseRequestUri => Silent(UriByte(n, c, lim))
    case ParseRequestHttpVersion => Silent(VersionByte(n, c, lim))
    case ParseHeaderName => HeaderNameByte(n.(headerBytes := n.headerBytes + 1), c, lim)
    case ParseHeaderValue => Silent(HeaderValueByte(n.(headerBytes := n.headerBytes + 1), c, lim))
    case ParseBody => BodyByte(n, c, lim)
    case ParseChunkSize => Silent(ChunkSizeByte(n, c, lim))
    case ParseChunk => ChunkByte(n, c, lim)
    case ParseChunkSkipLine =>
      Silent(if n.Token() == "\r" && c == '\n' then n.(chunkLength := 0).Enter(ParseChunkSize, c)
             else if n.Token() == "" && (c == '\n' || c == '\r') then n.Extend(c)
             else n.Fail())
    case ParseEndOfChunkedRequest =>
      if n.Token() == "\r" && c == '\n' then Step(INITIAL, [n.Finish("")])
      else if n.Token() == "" && (c == '\n' || c == '\r') then Silent(n.Extend(c))
      else Silent(n.Fail())
  }

  /** Positions are in order and in bounds. */
  predicate Ordered(m: Machine) {
    m.start <= |m.held| && (m.phase == ParseHeaderValue ==> m.nameStart <= m.nameEnd <= |m.held|)
  }

  function MethodByte(n: Machine, c: char): Machine
    requires Ordered(n)
  {
    if c == ' ' && n.Token() != "" then
      if VersionOf(n.Token()) != NoVersion then n.(version := VersionOf(n.Token())).Enter(ParseResponseStatus, c)
      else
        var k := n.(verb := ParseMethod(n.Token()));
        if k.verb == INVALID then k.Fail() else k.Enter(ParseRequestUri, c)
    else if n.count > 8 || !Ascii(c) then n.Fail()
    else n.Extend(c)
  }

  function StatusByte(n: Machine, c: char, lim: Limits): Machine
    requires Ordered(n)
  {
    if c == ' ' then (if |n.Token()| != 3 then n.Fail() else n.Enter(ParseResponseHeadersStart, c))
    else if n.count > lim.requestLine || !IsDigit(c, 10) then n.Fail()
    else n.Extend(c)
  }

  function UriByte(n: Machine, c: char, lim: Limits): Machine
    requires Ordered(n)
  {
    if c == ' ' && n.Token() == "" then n.Fail()
    else if c == ' ' then n.(uri := n.Token()).Enter(ParseRequestHttpVersion, c)
    else if n.count > lim.requestLine || !Ascii(c) then n.Fail()
    else n.Extend(c)
  }

  function VersionByte(n: Machine, c: char, lim: Limits): Machine
    requires Ordered(n)
  {
    if |n.Token()| > 1 && c == '\n' && EndsWithCr(n.Token()) then
      var version := VersionOf(Front(n.Token()));
      if version == NoVersion then n.Fail() else FirstHeader(n.(version := version), c)
    else if n.count > lim.requestLine || !Ascii(c) then n.Fail()
    else n.Extend(c)
  }

  function FirstHeader(n: Machine, c: char): Machine {
    n.Enter(ParseHeaderName, c).(checkpoint := |n.held| + 1, count := 0)
  }

  function HeaderNameByte(n: Machine, c: char, lim: Limits): Step<Machine>
    requires Ordered(n)
  {
    if c == ':' then
      var name := TrimLeft(n.Token());
      Silent(if name == "" then n.Fail()
             else n.(nameStart := |n.held| - |name|, nameEnd := |n.held|).Enter(ParseHeaderValue, c))
    else if c == '\n' && n.Token() == "\r" then HeadersDone(n, c, lim)
    else if n.headerBytes > lim.headerBytes || !Ascii(c) then Silent(n.Fail())
    else Silent(n.Extend(c))
  }

  function HeadersDone(n: Machine, c: char, lim: Limits): Step<Machine> {
    if IsChunked(n.headers) then Silent(n.Enter(ParseChunkSize, c))
    else if "content-length" in n.headers then
      match ParseNumber(n.headers["content-length"])
      case Some(length) =>
        Silent(if length <= lim.bodySize then n.(bodyLength := length, count := 0).Enter(ParseBody, c) else n.Fail())
      case None => Silent(n.Fail())
    else Step(INITIAL, [n.Finish("")])
  }

  function HeaderValueByte(n: Machine, c: char, lim: Limits): Machine
    requires Ordered(n) && n.phase == ParseHeaderValue
  {
    if c == '\n' && EndsWithCr(n.Token()) then
      var value := TrimLeft(Front(n.Token()));
      if value == "" then n.Fail()
      else
        n.(headers := Emplace(n.headers, ToLower(n.Name()), value), checkpoint := |n.held| + 1)
         .Enter(ParseHeaderName, c)
    else if n.headerBytes > lim.headerBytes || !Ascii(c) then n.Fail()
    else n.Extend(c)
  }

  function BodyByte(n: Machine, c: char, lim: Limits): Step<Machine>
    requires Ordered(n)
  {
    if n.count > lim.bodySize then Silent(n.Fail())
    else if n.count == n.bodyLength then Step(INITIAL, [n.Finish(n.body + n.Token() + [c])])
    else Silent(n.Extend(c))
  }

  function ChunkSizeByte(n: Machine, c: char, lim: Limits): Machine
    requires Ordered(n)
  {
    if c == '\n' && EndsWithCr(n.Token()) then
      match FromChars(Front(n.Token()), 16)
      case Some(length) =>
        if length > lim.bodyMemory then n.Fail()
        else if length > 0 then
          n.(chunkLength := length, bodyLength := n.bodyLength + length, body := "", count := 0).Enter(ParseChunk, c)
        else n.(chunkLength := 0).Enter(ParseEndOfChunkedRequest, c)
      case None => n.Fail()
    else if IsDigit(c, 16) || c == '\r' then n.Extend(c)
    else n.Fail()
  }

  /** A finished chunk leaves the buffer; the checkpoint stays behind. */
  function ChunkByte(n: Machine, c: char, lim: Limits): Step<Machine>
    requires Ordered(n)
  {
    if n.count == n.chunkLength then
      Step(n.(phase := ParseChunkSkipLine, held := "", start := 0, chunkLength := 0, headers := map[], body := ""),
           [n.Finish(n.body + n.Token() + [c])])
    else if n.count > lim.bodySize then Silent(n.Fail())
    else Silent(n.Extend(c))
  }

  // ------------------------------------------------------------- the full buffer

  function ShiftBack(position: nat, amount: nat): nat {
    if position >= amount then position - amount else 0
  }

  /** What `memmove(buffer, buffer + checkpoint, n)` leaves in the first bytes of the buffer that
      stay live, where n is `checkpoint` or the whole line. */
  function Moved(held: string, checkpoint: nat, how: Compaction): (r: string)
    requires checkpoint <= |held|
    ensures |r| == |held| - checkpoint
  {
    var line := |held| - checkpoint;
    var n := if how == WholeLine || checkpoint >= line then line else checkpoint;
    held[checkpoint..checkpoint + n] + held[n..line]
  }

  lemma MovedAt(held: string, checkpoint: nat, k: nat, how: Compaction)
    requires checkpoint <= |held| && k < |held| - checkpoint
    ensures Moved(held, checkpoint, how)[k] == held[if how == WholeLine || k < checkpoint then checkpoint + k else k]
  {
  }

  /** Body bytes are spilled; a line is moved to the front; a second full buffer of one line,
      or a full buffer of request line, is an error. */
  function Full(m: Machine, how: Compaction): Machine
    requires Ordered(m) && m.checkpoint <= |m.held|
  {
    if m.phase == ParseBody || m.phase == ParseChunk then
      m.(body := m.body + m.Token(), held := "", start := 0)
    else if m.checkpoint < 0 then m.Fail()
    else
      m.(held := Moved(m.held, m.checkpoint, how),
         start := ShiftBack(m.start, m.checkpoint),
         nameStart := ShiftBack(m.nameStart, m.checkpoint),
         nameEnd := ShiftBack(m.nameEnd, m.checkpoint),
         checkpoint := -1)
  }

  predicate IsFull(m: Machine, cfg: Config) {
    m.phase != Error && |m.held| == cfg.capacity
  }

  // ------------------------------------------------------------------ invariant

  /** Where the unfinished line begins in the held bytes. */
  function LineStart(m: Machine): nat {
    if m.checkpoint > 0 then m.checkpoint else 0
  }

  /** What holds of every machine, whether or not its buffer has just filled up. */
  ghost predicate Sound(m: Machine, cfg: Config) {
    && Ordered(m)
    && m.phase != Error
    && 0 < cfg.capacity
    && |m.held| <= cfg.capacity
    && m.checkpoint <= cfg.capacity
    && (m.checkpoint == -1 || m.checkpoint > 0)
    && match m.phase
       case ParseResponseOrRequest => OnRequestLine(m) && m.start == 0
       case ParseResponseStatus => OnRequestLine(m)
       case ParseResponseHeadersStart => OnRequestLine(m)
       case ParseRequestUri => OnRequestLine(m)
       case ParseRequestHttpVersion => OnRequestLine(m)
       case ParseHeaderName => m.body == "" && m.start == LineStart(m)
       case ParseHeaderValue =>
         m.body == "" && LineStart(m) <= m.nameStart < m.nameEnd && m.nameEnd + 1 == m.start
       case ParseBody => BodyAccount(m)
       case ParseChunk => BodyAccount(m) && m.count < m.chunkLength <= cfg.limits.bodyMemory
       case ParseChunkSize => m.body == ""
       case ParseChunkSkipLine => m.body == "" && m.start == 0 && |m.held| <= 1
       case ParseEndOfChunkedRequest => m.body == "" && |m.Token()| <= 1
  }

  ghost predicate OnRequestLine(m: Machine) {
    m.count == |m.held| && m.headerBytes == 0 && m.checkpoint == -1 && m.headers == map[] && m.body == ""
  }

  /** Spilled and held body bytes add up to the counter; spilling empties the buffer. */
  ghost predicate BodyAccount(m: Machine)
    requires Ordered(m)
  {
    m.count == |m.body| + |m.Token()| && (m.body != "" ==> m.start == 0)
  }

  /** A machine between two bytes: it has failed, or there is room for the next byte. */
  ghost predicate Ready(m: Machine, cfg: Config) {
    Ordered(m) && (m.phase == Error || (Sound(m, cfg) && |m.held| < cfg.capacity))
  }

  lemma InitialReady(cfg: Config)
    requires 0 < cfg.capacity
    ensures Ready(INITIAL, cfg) && Meaning(INITIAL) == START
  {
  }

  lemma SpillReady(m: Machine, cfg: Config)
    requires Sound(m, cfg) && IsFull(m, cfg) && (m.phase == ParseBody || m.phase == ParseChunk)
    ensures Ready(Full(m, cfg.compaction), cfg)
  {
    hide Moved;
  }

  lemma MoveReady(m: Machine, cfg: Config)
    requires Sound(m, cfg) && IsFull(m, cfg) && m.phase != ParseBody && m.phase != ParseChunk
    ensures Ready(Full(m, cfg.compaction), cfg)
  {
    hide Moved, BodyAccount;
  }

  lemma FullReady(m: Machine, cfg: Config)
    requires Sound(m, cfg) && IsFull(m, cfg)
    ensures Ready(Full(m, cfg.compaction), cfg)
  {
    hide Sound, Full, Ready;
    if m.phase == ParseBody || m.phase == ParseChunk {
      SpillReady(m, cfg);
    } else {
      MoveReady(m, cfg);
    }
  }

  // ----------------------------------------------------------------- abstraction

  ghost function HeadOf(m: Machine): Head {
    Head(m.version, m.verb, m.uri, m.headers, m.headerBytes)
  }

  /** The index-free state a machine stands for. */
  ghost function Meaning(m: Machine): Parser
    requires Ordered(m)
  {
    match m.phase
    case ParseResponseOrRequest => InMethod(m.Token())
    case ParseResponseStatus => InStatus(m.count, m.Token())
    case ParseResponseHeadersStart => InReason(m.count)
    case ParseRequestUri => InUri(m.verb, m.count, m.Token())
    case ParseRequestHttpVersion => InVersion(m.verb, m.uri, m.count, m.Token())
    case ParseHeaderName => InHeaderName(HeadOf(m), m.Token())
    case ParseHeaderValue =>
      var indent := if m.nameStart >= LineStart(m) then m.nameStart - LineStart(m) else 0;
      InHeaderValue(HeadOf(m), indent, m.Name(), m.Token())
    case ParseBody => InBody(HeadOf(m), m.bodyLength, m.body + m.Token())
    case ParseChunkSize => InChunkSize(HeadOf(m), m.Token())
    case ParseChunk => InChunk(HeadOf(m), m.chunkLength, m.body + m.Token())
    case ParseChunkSkipLine => InChunkEnd(HeadOf(m), m.Token())
    case ParseEndOfChunkedRequest => InLastLine(HeadOf(m), m.Token())
    case Error => Failed
  }

  /** One byte keeps the machine sound and does what the grammar does with it. */
  ghost predicate Follows(m: Machine, c: char, cfg: Config)
    requires Ordered(m)
  {
    var o := Byte(m, c, cfg.limits);
    && (o.next.phase == Error || Sound(o.next, cfg))
    && Ordered(o.next)
    && Step(Meaning(o.next), o.messages) == Consume(Meaning(m), c, cfg.limits)
  }

  lemma TokenExtends(m: Machine, c: char)
    requires Ordered(m)
    ensures (m.held + [c])[m.start..] == m.held[m.start..] + [c]
    ensures (m.held + [c])[|m.held| + 1..] == []
    ensures m.phase == ParseHeaderValue ==>
              (m.held + [c])[m.nameStart..m.nameEnd] == m.held[m.nameStart..m.nameEnd]
  {
  }

  lemma MethodFollows(m: Machine, c: char, cfg: Config)
    requires Ready(m, cfg) && m.phase == ParseResponseOrRequest
    ensures Follows(m, c, cfg)
  {
    hide ParseMethod, VersionOf;
    TokenExtends(m, c);
  }

  lemma StatusFollows(m: Machine, c: char, cfg: Config)
    requires Ready(m, cfg) && (m.phase == ParseResponseStatus || m.phase == ParseResponseHeadersStart)
    ensures Follows(m, c, cfg)
  {
    hide MethodByte, UriByte, VersionByte, HeaderNameByte, HeaderValueByte, ChunkSizeByte, BodyByte, ChunkByte;
    TokenExtends(m, c);
  }

  lemma UriFollows(m: Machine, c: char, cfg: Config)
    requires Ready(m, cfg) && m.phase == ParseRequestUri
    ensures Follows(m, c, cfg)
  {
    hide MethodByte, StatusByte, VersionByte, HeaderNameByte, HeaderValueByte, ChunkSizeByte, BodyByte, ChunkByte;
    TokenExtends(m, c);
  }

  lemma VersionFollows(m: Machine, c: char, cfg: Config)
    requires Ready(m, cfg) && m.phase == ParseRequestHttpVersion
    ensures Follows(m, c, cfg)
  {
    hide VersionOf;
    TokenExtends(m, c);
  }

  /** The blank line, with the counters increased already. */
  lemma HeadersDoneMeans(n: Machine, c: char, cfg: Config)
    requires Ordered(n) && n.body == "" && |n.held| < cfg.capacity
    requires (n.checkpoint == -1 || n.checkpoint > 0) && n.checkpoint <= cfg.capacity
    ensures var o := HeadersDone(n, c, cfg.limits);
            && (o.next.phase == Error || Sound(o.next, cfg))
            && Ordered(o.next)
            && Step(Meaning(o.next), o.messages) == EndOfHeaders(HeadOf(n), cfg.limits)
  {
    hide IsChunked, ParseNumber;
    assert (n.held + [c])[|n.held| + 1..] == "" && n.body + "" == "";
  }

  lemma BlankLineByte(m: Machine, c: char, lim: Limits)
    requires Ordered(m) && m.phase == ParseHeaderName && c == '\n' && m.Token() == "\r"
    ensures var n := m.(count := m.count + 1, headerBytes := m.headerBytes + 1);
            && Byte(m, c, lim) == HeadersDone(n, c, lim)
            && Consume(Meaning(m), c, lim) == EndOfHeaders(HeadOf(n), lim)
  {
    hide MethodByte, StatusByte, UriByte, VersionByte, HeaderValueByte, ChunkSizeByte, BodyByte, ChunkByte;
    hide HeadersDone, EndOfHeaders;
  }

  lemma HeadersDoneFollows(m: Machine, c: char, cfg: Config)
    requires Ready(m, cfg) && m.phase == ParseHeaderName && c == '\n' && m.Token() == "\r"
    ensures Follows(m, c, cfg)
  {
    hide Byte, Consume, HeadersDone, EndOfHeaders;
    HeadersDoneMeans(m.(count := m.count + 1, headerBytes := m.headerBytes + 1), c, cfg);
    BlankLineByte(m, c, cfg.limits);
  }

  lemma NameSlice(m: Machine, c: char)
    requires m.start <= |m.held|
    ensures var name := TrimLeft(m.Token());
            |name| <= |m.Token()| && (m.held + [c])[|m.held| - |name|..|m.held|] == name
  {
    TrimLeftFacts(m.Token());
  }

  lemma ColonFollows(m: Machine, c: char, cfg: Config)
    requires Ready(m, cfg) && m.phase == ParseHeaderName && c == ':'
    ensures Follows(m, c, cfg)
  {
    hide TrimLeft, HeadersDone, EndOfHeaders;
    NameSlice(m, c);
    TokenExtends(m, c);
  }

  lemma HeaderNameFollows(m: Machine, c: char, cfg: Config)
    requires Ready(m, cfg) && m.phase == ParseHeaderName && c != ':' && (c != '\n' || m.Token() != "\r")
    ensures Follows(m, c, cfg)
  {
    hide TrimLeft, HeadersDone, EndOfHeaders;
    TokenExtends(m, c);
  }

  lemma HeaderValueFollows(m: Machine, c: char, cfg: Config)
    requires Ready(m, cfg) && m.phase == ParseHeaderValue
    ensures Follows(m, c, cfg)
  {
    hide MethodByte, StatusByte, UriByte, VersionByte, HeaderNameByte, ChunkSizeByte, BodyByte, ChunkByte;
    hide TrimLeft, ToLower, BodyAccount;
    TokenExtends(m, c);
  }

  lemma BodyFollows(m: Machine, c: char, cfg: Config)
    requires Ready(m, cfg) && m.phase == ParseBody
    ensures Follows(m, c, cfg)
  {
    hide MethodByte, HeaderNameByte, HeaderValueByte, ChunkSizeByte;
    TokenExtends(m, c);
    assert m.body + (m.Token() + [c]) == (m.body + m.Token()) + [c];
  }

  lemma ChunkFollows(m: Machine, c: char, cfg: Config)
    requires Ready(m, cfg) && m.phase == ParseChunk
    ensures Follows(m, c, cfg)
  {
    hide StatusByte, UriByte, VersionByte, BodyByte;
    hide MethodByte, HeaderNameByte, HeaderValueByte, ChunkSizeByte;
    TokenExtends(m, c);
    assert m.body + (m.Token() + [c]) == (m.body + m.Token()) + [c];
  }

  lemma ChunkSizeFollows(m: Machine, c: char, cfg: Config)
    requires Ready(m, cfg) && m.phase == ParseChunkSize
    ensures Follows(m, c, cfg)
  {
    hide MethodByte, StatusByte, UriByte, VersionByte, HeaderNameByte, HeaderValueByte, BodyByte, ChunkByte;
    hide FromChars;
    TokenExtends(m, c);
    assert "" + (m.held + [c])[|m.held| + 1..] == "";
  }

  lemma ChunkEndFollows(m: Machine, c: char, cfg: Config)
    requires Ready(m, cfg) && m.phase == ParseChunkSkipLine
    ensures Follows(m, c, cfg)
  {
    hide MethodByte, StatusByte, UriByte, VersionByte, HeaderNameByte, HeaderValueByte;
    hide ChunkSizeByte, BodyByte, ChunkByte, BodyAccount;
    TokenExtends(m, c);
    assert m.Token() == [] ==> m.Token() + [c] == [c];
  }

  lemma LastLineFollows(m: Machine, c: char, cfg: Config)
    requires Ready(m, cfg) && m.phase == ParseEndOfChunkedRequest
    ensures Follows(m, c, cfg)
  {
    hide MethodByte, StatusByte, UriByte, VersionByte, HeaderNameByte, HeaderValueByte;
    hide ChunkSizeByte, BodyByte, ChunkByte, BodyAccount;
    TokenExtends(m, c);
    assert m.Token() == [] ==> m.Token() + [c] == [c];
  }

  lemma ByteFollows(m: Machine, c: char, cfg: Config)
    requires Ready(m, cfg)
    ensures Follows(m, c, cfg)
  {
    if m.phase != Error {
      hide Byte, Consume, Sound, Follows, Meaning;
      match m.phase {
        case ParseResponseOrRequest => MethodFollows(m, c, cfg);
        case ParseResponseStatus => StatusFollows(m, c, cfg);
        case ParseResponseHeadersStart => StatusFollows(m, c, cfg);
        case ParseRequestUri => UriFollows(m, c, cfg);
        case ParseRequestHttpVersion => VersionFollows(m, c, cfg);
        case ParseHeaderName =>
          if c == '\n' && m.Token() == "\r" {
            HeadersDoneFollows(m, c, cfg);
          } else if c == ':' {
            ColonFollows(m, c, cfg);
          } else {
            HeaderNameFollows(m, c, cfg);
          }
        case ParseHeaderValue => HeaderValueFollows(m, c, cfg);
        case ParseBody => BodyFollows(m, c, cfg);
        case ParseChunk => ChunkFollows(m, c, cfg);
        case ParseChunkSize => ChunkSizeFollows(m, c, cfg);
        case ParseChunkSkipLine => ChunkEndFollows(m, c, cfg);
        case ParseEndOfChunkedRequest => LastLineFollows(m, c, cfg);
      }
    }
  }

  lemma ByteOrdered(m: Machine, c: char, cfg: Config)
    requires Ready(m, cfg)
    ensures Ordered(Byte(m, c, cfg.limits).next)
  {
    hide Byte, Consume, Sound, Meaning;
    ByteFollows(m, c, cfg);
  }

  // ------------------------------------------------------------------------ runs

  function Next(m: Machine, c: char, cfg: Config): (o: Step<Machine>)
    requires Ready(m, cfg)
    ensures Ready(o.next, cfg)
  {
    ByteFollows(m, c, cfg);
    var o := Byte(m, c, cfg.limits);
    if IsFull(o.next, cfg) then
      FullReady(o.next, cfg);
      Step(Full(o.next, cfg.compaction), o.messages)
    else o
  }

  /** The fold over a whole stream of bytes; no trace of how the bytes were grouped into reads. */
  function Run(m: Machine, input: string, cfg: Config): (r: Step<Machine>)
    requires Ready(m, cfg)
    ensures Ready(r.next, cfg)
    decreases |input|
  {
    if input == "" then Silent(m)
    else
      var first := Next(m, input[0], cfg);
      var rest := Run(first.next, input[1..], cfg);
      Step(rest.next, first.messages + rest.messages)
  }

  /** Feeding `a` and then `b` is feeding `a + b`. */
  lemma {:induction false} RunAppend(m: Machine, a: string, b: string, cfg: Config)
    requires Ready(m, cfg)
    ensures var first := Run(m, a, cfg);
            var second := Run(first.next, b, cfg);
            Run(m, a + b, cfg) == Step(second.next, first.messages + second.messages)
    decreases |a|
  {
    hide Next, Ready;
    if a == "" {
      assert a + b == b;
    } else {
      assert (a + b)[1..] == a[1..] + b;
      var first := Next(m, a[0], cfg);
      RunAppend(first.next, a[1..], b, cfg);
    }
  }

  lemma {:induction false} ErrorStays(m: Machine, input: string, cfg: Config)
    requires Ready(m, cfg) && m.phase == Error
    ensures Run(m, input, cfg) == Silent(m)
    decreases |input|
  {
    if input != "" {
      ErrorStays(m, input[1..], cfg);
    }
  }

  // -------------------------------------------------- a run that is under way

  /** The machine once a buffer that has just filled up has been seen to. */
  function Settle(m: Machine, cfg: Config): (s: Machine)
    requires Sound(m, cfg)
    ensures Ready(s, cfg)
  {
    if IsFull(m, cfg) then
      FullReady(m, cfg);
      Full(m, cfg.compaction)
    else m
  }

  /** From `m0`, `input` has brought out `messages` so far; `m` is to go on with `rest`. */
  ghost predicate UnderWay(m0: Machine, input: string, cfg: Config, messages: seq<Message>, m: Machine, rest: string) {
    Ready(m0, cfg) && Sound(m, cfg) &&
    var r := Run(Settle(m, cfg), rest, cfg);
    Run(m0, input, cfg) == Step(r.next, messages + r.messages)
  }

  lemma UnderWayStart(m: Machine, input: string, cfg: Config)
    requires Ready(m, cfg) && m.phase != Error
    ensures UnderWay(m, input, cfg, [], m, input)
  {
    var r := Run(m, input, cfg);
    assert [] + r.messages == r.messages;
  }

  lemma UnderWayStep(m0: Machine, input: string, cfg: Config, messages: seq<Message>, m: Machine, rest: string)
    requires UnderWay(m0, input, cfg, messages, m, rest) && rest != "" && |m.held| < cfg.capacity
    ensures var o := Byte(m, rest[0], cfg.limits);
            if o.next.phase == Error then
              Run(m0, input, cfg).next.phase == Error && Run(m0, input, cfg).messages == messages + o.messages
            else UnderWay(m0, input, cfg, messages + o.messages, o.next, rest[1..])
  {
    hide Byte, Sound, Full;
    ByteFollows(m, rest[0], cfg);
    var o := Byte(m, rest[0], cfg.limits);
    var r := Run(Next(m, rest[0], cfg).next, rest[1..], cfg);
    if o.next.phase == Error {
      ErrorStays(o.next, rest[1..], cfg);
    }
    assert (messages + o.messages) + r.messages == messages + (o.messages + r.messages);
  }

  lemma UnderWayEnd(m0: Machine, input: string, cfg: Config, messages: seq<Message>, m: Machine)
    requires UnderWay(m0, input, cfg, messages, m, "")
    ensures Run(m0, input, cfg) == Step(Settle(m, cfg), messages)
  {
  }
}
