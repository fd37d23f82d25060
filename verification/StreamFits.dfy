/** Streams whose lines are short go through the bounded buffer unharmed. */
module StreamFits {
  import opened Text
  import opened Http
  import P = StreamParser
  import B = BoundedParser
  import opened Transparency
  import opened RequestRoundTrip
  import opened ChunkedDecoding
  import opened Language

  // -------------------------------------------------------------- short input

  lemma {:induction false} AllFitAppend(p: P.Parser, a: string, b: string, cfg: B.Config)
    requires AllFit(p, a, cfg) && AllFit(P.Run(p, a, cfg.limits).next, b, cfg)
    ensures AllFit(p, a + b, cfg)
    decreases |a|
  {
    hide P.Consume, Fits;
    if a == "" {
      assert a + b == b;
    } else {
      assert (a + b)[1..] == a[1..] + b;
      AllFitAppend(P.Consume(p, a[0], cfg.limits).next, a[1..], b, cfg);
    }
  }

  /** The parts of a message, in their order. */
  ghost function Rank(p: P.Parser): nat {
    match p
    case InMethod(_) => 0
    case InStatus(_, _) => 0
    case InReason(_) => 0
    case InUri(_, _, _) => 0
    case InVersion(_, _, _, _) => 0
    case InHeaderName(_, _) => 1
    case InHeaderValue(_, _, _, _) => 1
    case Failed => 3
    case _ => 2
  }

  /** How many bytes of its line a state has read. */
  ghost function Width(p: P.Parser): nat {
    match p
    case InMethod(text) => |text|
    case InStatus(count, _) => count
    case InReason(count) => count
    case InUri(_, count, _) => count
    case InVersion(_, _, count, _) => count
    case InHeaderName(_, text) => |text|
    case InHeaderValue(_, indent, name, text) => indent + |name| + 1 + |text|
    case _ => 0
  }

  ghost function Room(rank: nat, cfg: B.Config): int {
    if rank == 0 then cfg.capacity - 1 else Span(cfg)
  }

  /** While nothing is completed a message only goes forward, and its line grows byte by byte. */
  lemma RankGrows(p: P.Parser, c: char, lim: P.Limits)
    requires P.Consume(p, c, lim).messages == []
    ensures var q := P.Consume(p, c, lim).next;
            Rank(q) >= Rank(p) && (Rank(q) == Rank(p) <= 1 ==> Width(q) <= Width(p) + 1)
  {
    hide ParseMethod, VersionOf, P.IsChunked, P.ParseNumber, FromChars, ToLower;
    TrimShorter(if p.InHeaderName? then p.text else "");
    hide TrimLeft;
  }

  lemma TrimShorter(text: string)
    ensures |TrimLeft(text)| <= |text|
  {
  }

  lemma {:induction false} RunRank(p: P.Parser, s: string, lim: P.Limits)
    requires P.Run(p, s, lim).messages == []
    ensures Rank(P.Run(p, s, lim).next) >= Rank(p)
    decreases |s|
  {
    hide P.Consume, Rank;
    if s != "" {
      RankGrows(p, s[0], lim);
      RunRank(P.Consume(p, s[0], lim).next, s[1..], lim);
    }
  }

  /** Bytes that stay in the request line, or in the header section, fit if there is room for all
      of them. */
  lemma {:induction false} LineFits(p: P.Parser, s: string, cfg: B.Config)
    requires P.Run(p, s, cfg.limits).messages == [] && Rank(P.Run(p, s, cfg.limits).next) == Rank(p) <= 1
    requires Width(p) + |s| <= Room(Rank(p), cfg)
    ensures AllFit(p, s, cfg)
    decreases |s|
  {
    hide P.Consume;
    if s != "" {
      RankGrows(p, s[0], cfg.limits);
      RunRank(P.Consume(p, s[0], cfg.limits).next, s[1..], cfg.limits);
      LineFits(P.Consume(p, s[0], cfg.limits).next, s[1..], cfg);
    }
  }

  /** The last byte only has to lead to a state that fits. */
  lemma AllFitSnoc(p: P.Parser, s: string, c: char, cfg: B.Config)
    requires AllFit(p, s, cfg) && Fits(P.Run(p, s + [c], cfg.limits).next, cfg)
    ensures AllFit(p, s + [c], cfg)
  {
    hide P.Consume, Fits;
    var q := P.Run(p, s, cfg.limits).next;
    P.RunAppend(p, s, [c], cfg.limits);
    assert [c][1..] == "";
    AllFitEnds(p, s, cfg);
    AllFitAppend(p, s, [c], cfg);
  }

  lemma {:induction false} AllFitEnds(p: P.Parser, s: string, cfg: B.Config)
    requires AllFit(p, s, cfg)
    ensures Fits(P.Run(p, s, cfg.limits).next, cfg)
    decreases |s|
  {
    hide P.Consume, Fits;
    if s != "" {
      AllFitEnds(P.Consume(p, s[0], cfg.limits).next, s[1..], cfg);
    }
  }

  /** A run of one more byte, seen from its end. */
  lemma SilentSnoc(p: P.Parser, s: string, c: char, lim: P.Limits)
    requires P.Run(p, s + [c], lim).messages == []
    ensures P.Run(p, s, lim).messages == [] && P.Consume(P.Run(p, s, lim).next, c, lim) == P.Run(p, s + [c], lim)
  {
    hide P.Consume;
    P.RunAppend(p, s, [c], lim);
    assert [c][1..] == "";
  }

  /** Body bytes always fit: they are spilled. */
  lemma {:induction false} BodyFits(head: P.Head, length: int, t: string, s: string, cfg: B.Config)
    requires |t| + |s| <= length && 0 < cfg.capacity
    ensures AllFit(P.InBody(head, length, t), s, cfg)
    decreases |s|
  {
    if s != "" {
      if |t| + 1 > cfg.limits.bodySize {
        FailedFits(s[1..], cfg);
      } else if |t| + 1 == length {
        assert s[1..] == "";
      } else {
        BodyFits(head, length, t + [s[0]], s[1..], cfg);
      }
    }
  }

  lemma {:induction false} FailedFits(s: string, cfg: B.Config)
    ensures AllFit(P.Failed, s, cfg)
    decreases |s|
  {
    if s != "" {
      FailedFits(s[1..], cfg);
    }
  }

  lemma {:induction false} ChunkFits(head: P.Head, length: int, t: string, s: string, cfg: B.Config)
    requires |t| + |s| <= length && 0 < cfg.capacity
    ensures AllFit(P.InChunk(head, length, t), s, cfg)
    decreases |s|
  {
    if s != "" {
      if |t| + 1 == length {
        assert s[1..] == "";
      } else if |t| + 1 > cfg.limits.bodySize {
        FailedFits(s[1..], cfg);
      } else {
        ChunkFits(head, length, t + [s[0]], s[1..], cfg);
      }
    }
  }


  // ------------------------------------------------------------------ requests

  /** A request line of at most the whole buffer, and header lines that without their last byte are
      no longer than a line may be. */
  ghost predicate ShortLines(m: Message, lines: seq<Line>, cfg: B.Config) {
    |RequestLine(m)| <= cfg.capacity && ShortHeaders(lines, cfg)
  }

  ghost predicate ShortHeaders(lines: seq<Line>, cfg: B.Config) {
    forall k :: 0 <= k < |lines| ==> |LineText(lines[k])| - 1 <= Span(cfg)
  }

  lemma RequestLineRoom(m: Message, cfg: B.Config)
    requires Known(m.verb) && m.version != NoVersion && CleanUri(m.uri) && |RequestLine(m)| <= cfg.capacity
    ensures 14 <= |RequestLine(m)| && 7 <= Span(cfg) < cfg.capacity
  {
    MethodNames(m.verb);
    VersionNames(m.version);
  }

  /** The byte before the end of a request line still belongs to it. */
  lemma BeforeHeaders(p: P.Parser, h: P.Head, lim: P.Limits)
    requires P.Consume(p, '\n', lim) == P.Silent(P.InHeaderName(h, "")) && h.bytes == 0 && Rank(p) <= 1
    ensures Rank(p) == 0
  {
    hide TrimLeft, ToLower, P.IsChunked, P.ParseNumber;
  }

  lemma RequestLineFits(m: Message, cfg: B.Config)
    requires GoodRequestLine(m, cfg.limits) && |RequestLine(m)| <= cfg.capacity
    ensures AllFit(P.START, RequestLine(m), cfg)
  {
    RequestLineRoom(m, cfg);
    ReadRequestLine(m, cfg.limits);
    var line := RequestLine(m);
    assert line[|line| - 1] == '\n';
    hide P.Run, P.Consume, RequestLine, AllFit, Span;
    var s := line[..|line| - 1];
    assert line == s + ['\n'];
    var h := P.Head(m.version, m.verb, m.uri, map[], 0);
    SilentSnoc(P.START, s, '\n', cfg.limits);
    RankGrows(P.Run(P.START, s, cfg.limits).next, '\n', cfg.limits);
    BeforeHeaders(P.Run(P.START, s, cfg.limits).next, h, cfg.limits);
    LineFits(P.START, s, cfg);
    AllFitSnoc(P.START, s, '\n', cfg);
  }

  lemma HeaderLineFits(head: P.Head, l: Line, cfg: B.Config)
    requires GoodLine(l) && head.bytes + |LineText(l)| <= cfg.limits.headerBytes + 1
    requires |LineText(l)| - 1 <= Span(cfg)
    ensures AllFit(P.InHeaderName(head, ""), LineText(l), cfg)
  {
    ReadLine(head, l, cfg.limits);
    var p, line := P.InHeaderName(head, ""), LineText(l);
    assert line[|line| - 1] == '\n';
    hide P.Run, P.Consume, LineText, AllFit, Span, GoodLine, P.Emplace, ToLower;
    var s := line[..|line| - 1];
    assert line == s + ['\n'];
    SilentSnoc(p, s, '\n', cfg.limits);
    RunRank(p, s, cfg.limits);
    RankGrows(P.Run(p, s, cfg.limits).next, '\n', cfg.limits);
    LineFits(p, s, cfg);
    AllFitSnoc(p, s, '\n', cfg);
  }

  lemma {:induction false} HeaderLinesFit(m: Message, lines: seq<Line>, cfg: B.Config)
    requires GoodLines(lines) && ShortHeaders(lines, cfg) && 0 <= Span(cfg)
    requires lines == [] || |LinesText(lines)| <= cfg.limits.headerBytes + 1
    ensures AllFit(P.InHeaderName(HeadAt(m, []), ""), LinesText(lines), cfg)
    decreases |lines|
  {
    hide P.Run, GoodLine, LineText, Span;
    var p := P.InHeaderName(HeadAt(m, []), "");
    if lines != [] {
      hide AllFit;
      var n := |lines| - 1;
      HeaderLinesFit(m, lines[..n], cfg);
      ReadLines(m, lines[..n], cfg.limits);
      HeaderLineFits(HeadAt(m, lines[..n]), lines[n], cfg);
      AllFitAppend(p, LinesText(lines[..n]), LineText(lines[n]), cfg);
    }
  }

  /** The blank line fits if what it leads to does. */
  lemma BlankLineFits(h: P.Head, cfg: B.Config)
    requires h.bytes + 1 <= cfg.limits.headerBytes && 1 <= Span(cfg)
    requires Fits(P.Run(P.InHeaderName(h, ""), CRLF, cfg.limits).next, cfg)
    ensures AllFit(P.InHeaderName(h, ""), CRLF, cfg)
  {
    hide P.Consume, P.Run, Span;
    var p, q := P.InHeaderName(h, ""), P.InHeaderName(h.(bytes := h.bytes + 1), "\r");
    CrOfBlankLine(h, cfg.limits);
    P.OneByte(p, '\r', cfg.limits);
    assert "\r" == ['\r'] && ['\r'][1..] == "";
    assert AllFit(q, "", cfg);
    assert AllFit(p, "\r", cfg);
    hide AllFit;
    assert "\r" + ['\n'] == CRLF;
    AllFitSnoc(p, "\r", '\n', cfg);
  }

  lemma EndFits(h: P.Head, m: Message, cfg: B.Config)
    requires h.headers == m.headers && Delimited(m) && h.bytes + 1 <= cfg.limits.headerBytes
    requires WithinBody(m.body, cfg.limits) && 1 <= Span(cfg) && 0 < cfg.capacity
    ensures AllFit(P.InHeaderName(h, ""), CRLF + m.body, cfg)
  {
    var h2 := h.(bytes := h.bytes + 2);
    ReadBlankLine(h, cfg.limits);
    HeadersLead(h2, |m.body|, cfg.limits);
    hide P.Consume, P.Run, AllFit, Span, ListsChunked, Declares, P.EndOfHeaders;
    BlankLineFits(h, cfg);
    if m.body == "" {
      assert CRLF + m.body == CRLF;
    } else {
      BodyFits(h2, |m.body|, "", m.body, cfg);
      AllFitAppend(P.InHeaderName(h, ""), CRLF, m.body, cfg);
    }
  }

  /** Request line and headers fit, and what follows the headers decides. */
  lemma HeadFits(m: Message, lines: seq<Line>, rest: string, cfg: B.Config)
    requires GoodHead(m, lines, cfg.limits) && ShortLines(m, lines, cfg)
    ensures 7 <= Span(cfg) < cfg.capacity
    ensures AllFit(P.InHeaderName(HeadAt(m, lines), ""), rest, cfg) ==>
              AllFit(P.START, HeadText(m, lines) + rest, cfg)
  {
    hide P.Run, RequestLine, CleanUri, GoodLines, LinesText, AllFit, Span, ShortHeaders, Gives, Stored;
    RequestLineRoom(m, cfg);
    if AllFit(P.InHeaderName(HeadAt(m, lines), ""), rest, cfg) {
      ReadRequestLine(m, cfg.limits);
      RequestLineFits(m, cfg);
      NoLines(m);
      HeaderLinesFit(m, lines, cfg);
      AllFitAppend(P.START, RequestLine(m), LinesText(lines), cfg);
      ReadHead(m, lines, cfg.limits);
      AllFitAppend(P.START, HeadText(m, lines), rest, cfg);
    }
  }

  lemma RequestFits(m: Message, lines: seq<Line>, cfg: B.Config)
    requires GoodRequest(m, lines, cfg.limits) && ShortLines(m, lines, cfg)
    ensures AllFit(P.START, RequestSent(m, lines), cfg)
  {
    hide P.Run, HeadText, GoodRequestLine, GoodLines, LinesText, Delimited, AllFit, Span, ShortLines, Gives;
    HeadFits(m, lines, CRLF + m.body, cfg);
    StoredExactly(lines, m.headers);
    EndFits(HeadAt(m, lines), m, cfg);
  }

  // ------------------------------------------------------------ chunked bodies

  /** How long a size line may be, by what is in front of it: behind the headers it shares the buffer with
      them, behind a chunk it has an empty one. */
  ghost function SizeRoom(head: P.Head, cfg: B.Config): int {
    if BehindChunk(head) then cfg.capacity - 1 else Span(cfg)
  }

  /** The size line behind the headers, without its last byte, and four more are no longer than a line
      may be; every later one leaves room in the buffer. */
  ghost predicate ShortSizes(chunks: seq<Chunk>, last: Size, cfg: B.Config) {
    && ShortSize(SizeAt(chunks, last, 0), Span(cfg))
    && forall k :: 0 < k <= |chunks| ==> ShortSize(SizeAt(chunks, last, k), cfg.capacity - 1)
  }

  function SizeAt(chunks: seq<Chunk>, last: Size, k: nat): Size
    requires k <= |chunks|
  {
    if k < |chunks| then chunks[k].size else last
  }

  predicate ShortSize(z: Size, room: int) {
    |SizeLine(z)| + 3 <= room
  }

  lemma {:induction false} SizeTextFits(head: P.Head, t: string, s: string, cfg: B.Config)
    requires SizeBytes(s) && |t| + |s| + 4 <= SizeRoom(head, cfg)
    ensures AllFit(P.InChunkSize(head, t), s, cfg)
    decreases |s|
  {
    hide FromChars, Span, Digit;
    if s != "" {
      assert SizeByte(s[0]);
      DigitExactly(s[0], 16);
      SizeTextFits(head, t + [s[0]], s[1..], cfg);
    }
  }

  lemma SizeLineFits(head: P.Head, z: Size, n: nat, cfg: B.Config)
    requires SizeIs(z, n) && ShortSize(z, SizeRoom(head, cfg))
    requires Fits(P.Run(P.InChunkSize(head, ""), SizeLine(z), cfg.limits).next, cfg)
    ensures AllFit(P.InChunkSize(head, ""), SizeLine(z), cfg)
  {
    hide P.Run, P.Consume, SizeRoom, SizeIs, SizeText, SizeByte, Numeral, FromChars;
    SizeIsNumeral(z, n);
    CrIsSizeByte();
    SizeTextFits(head, "", SizeText(z) + "\r", cfg);
    assert SizeLine(z) == (SizeText(z) + "\r") + ['\n'];
    hide AllFit;
    AllFitSnoc(P.InChunkSize(head, ""), SizeText(z) + "\r", '\n', cfg);
  }

  lemma BreakFits(head: P.Head, cfg: B.Config)
    requires 0 < cfg.capacity
    ensures BehindChunk(head) && 4 < cfg.capacity ==> AllFit(P.InChunkEnd(head, ""), CRLF, cfg)
    ensures AllFit(P.InLastLine(head, ""), CRLF, cfg)
  {
    hide Span;
    assert CRLF == ['\r', '\n'] && CRLF[1..] == ['\n'] && ['\n'][1..] == "";
    assert AllFit(P.InLastLine(head, "\r"), ['\n'], cfg);
    if BehindChunk(head) && 4 < cfg.capacity {
      assert AllFit(P.InChunkEnd(head, "\r"), ['\n'], cfg);
    }
  }

  lemma ChunkTextFits(head: P.Head, c: Chunk, cfg: B.Config)
    requires GoodChunk(c, cfg.limits) && ShortSize(c.size, SizeRoom(head, cfg)) && 4 < cfg.capacity
    ensures AllFit(P.InChunkSize(head, ""), ChunkText(c), cfg)
  {
    hide P.Run, SizeIs, SizeLine, AllFit, Span, SizeRoom, ShortSize;
    var p, q := P.InChunkSize(head, ""), P.InChunkEnd(WithoutHeaders(head), "");
    ReadSize(head, c.size, |c.data|, cfg.limits);
    SizeLineFits(head, c.size, |c.data|, cfg);
    ChunkFits(head, |c.data|, "", c.data, cfg);
    BreakFits(WithoutHeaders(head), cfg);
    DataText(head, |c.data|, "", c.data, cfg.limits);
    AllFitAppend(P.InChunk(head, |c.data|, ""), c.data, CRLF, cfg);
    AllFitAppend(p, SizeLine(c.size), c.data + CRLF, cfg);
  }

  lemma ShortNow(head: P.Head, chunks: seq<Chunk>, last: Size, k: nat, cfg: B.Config)
    requires ShortSizes(chunks, last, cfg) && k <= |chunks| && !BehindChunk(head)
    ensures ShortSize(SizeAt(chunks, last, k), SizeRoom(HeadBehind(head, chunks[..k]), cfg)) && 5 <= Span(cfg)
  {
    hide SizeText, Span;
    assert k > 0 ==> BehindChunk(HeadBehind(head, chunks[..k])) && chunks[..k] != [];
    assert k == 0 ==> chunks[..k] == [];
    assert |SizeLine(SizeAt(chunks, last, 0))| >= 2;
  }

  lemma {:induction false} ChunksFit(head: P.Head, chunks: seq<Chunk>, last: Size, n: nat, cfg: B.Config)
    requires GoodChunks(chunks, cfg.limits) && ShortSizes(chunks, last, cfg) && n <= |chunks|
    requires !BehindChunk(head) && 0 < cfg.capacity
    ensures AllFit(P.InChunkSize(head, ""), ChunksText(chunks[..n]), cfg)
    decreases n
  {
    hide P.Run, GoodChunk, ChunkText, Span, ShortSizes, SizeRoom, ShortSize;
    ShortNow(head, chunks, last, if n == 0 then 0 else n - 1, cfg);
    SpanWithin(cfg);
    var p := P.InChunkSize(head, "");
    if n == 0 {
      assert chunks[..0] == [];
      FirstSizeFits(head, cfg);
    } else {
      hide AllFit;
      var before := chunks[..n - 1];
      assert chunks[..n][..n - 1] == before && chunks[..n][n - 1] == chunks[n - 1];
      ChunksFit(head, chunks, last, n - 1, cfg);
      ReadChunks(head, before, cfg.limits);
      ChunkTextFits(HeadBehind(head, before), chunks[n - 1], cfg);
      AllFitAppend(p, ChunksText(before), ChunkText(chunks[n - 1]), cfg);
    }
  }

  lemma SpanWithin(cfg: B.Config)
    ensures Span(cfg) <= cfg.capacity
  {
  }

  lemma FirstSizeFits(head: P.Head, cfg: B.Config)
    requires !BehindChunk(head) && 5 <= Span(cfg)
    ensures AllFit(P.InChunkSize(head, ""), "", cfg)
  {
  }

  /** The lines of a chunked body fit if its size lines are short. */
  lemma EncodedFits(head: P.Head, chunks: seq<Chunk>, last: Size, cfg: B.Config)
    requires GoodChunks(chunks, cfg.limits) && GoodLast(last, cfg.limits) && ShortSizes(chunks, last, cfg)
    requires !BehindChunk(head) && 0 < cfg.capacity
    ensures AllFit(P.InChunkSize(head, ""), Encoded(chunks, last), cfg)
  {
    hide P.Run, GoodChunks, ChunksText, SizeIs, SizeLine, AllFit, Span, ShortSizes, SizeRoom, ShortSize;
    var n, h := |chunks|, HeadBehind(head, chunks);
    assert chunks[..n] == chunks;
    ChunksFit(head, chunks, last, n, cfg);
    ReadChunks(head, chunks, cfg.limits);
    ShortNow(head, chunks, last, n, cfg);
    ReadSize(h, last, 0, cfg.limits);
    SizeLineFits(h, last, 0, cfg);
    BreakFits(h, cfg);
    AllFitAppend(P.InChunkSize(h, ""), SizeLine(last), CRLF, cfg);
    AllFitAppend(P.InChunkSize(head, ""), ChunksText(chunks), SizeLine(last) + CRLF, cfg);
  }

  lemma ChunkedFits(m: Message, lines: seq<Line>, chunks: seq<Chunk>, last: Size, cfg: B.Config)
    requires GoodChunked(m, lines, chunks, last, cfg.limits) && ShortLines(m, lines, cfg)
    requires ShortSizes(chunks, last, cfg)
    ensures AllFit(P.START, ChunkedText(m, lines, chunks, last), cfg)
  {
    hide P.Run, HeadText, GoodRequestLine, GoodLines, LinesText, ListsChunked, Gives, GoodChunks, GoodLast, Encoded;
    hide AllFit, ShortLines, ShortSizes, Span;
    var h, body := HeadAt(m, lines), Encoded(chunks, last);
    HeadFits(m, lines, CRLF + body, cfg);
    StoredExactly(lines, m.headers);
    var h2 := h.(bytes := h.bytes + 2);
    NotBehindChunk(h2);
    EncodedFits(h2, chunks, last, cfg);
    ReadChunkedEnd(h, cfg.limits);
    AllFitFirst(h2, body, cfg);
    BlankLineFits(h, cfg);
    AllFitAppend(P.InHeaderName(h, ""), CRLF, body, cfg);
  }

  lemma NotBehindChunk(h: P.Head)
    requires ListsChunked(h.headers)
    ensures !BehindChunk(h)
  {
  }

  lemma AllFitFirst(h: P.Head, s: string, cfg: B.Config)
    requires AllFit(P.InChunkSize(h, ""), s, cfg)
    ensures Fits(P.InChunkSize(h, ""), cfg)
  {
  }

  // --------------------------------------------------------- whole connections

  /** A request that the assembler takes, and whose lines are short. */
  ghost predicate Short(x: Exchange, cfg: B.Config) {
    && Good(x, cfg.limits) && ShortLines(x.message, x.lines, cfg)
    && (x.Chunked? ==> ShortSizes(x.chunks, x.last, cfg))
  }

  ghost predicate AllShort(xs: seq<Exchange>, cfg: B.Config) {
    forall k :: 0 <= k < |xs| ==> Short(xs[k], cfg)
  }

  lemma ExchangeFits(x: Exchange, cfg: B.Config)
    requires Short(x, cfg)
    ensures 0 < cfg.capacity && AllFit(P.START, Sent(x), cfg)
    ensures P.Run(P.START, Sent(x), cfg.limits) == P.Step(P.START, Due(x))
  {
    hide P.Run, AllFit, RequestSent, ChunkedText, ShortHeaders, ShortSizes, GoodRequest, GoodChunked;
    ExchangeRead(x, cfg.limits);
    match x
    case Plain(m, lines) => RequestFits(m, lines, cfg);
    case Chunked(m, lines, chunks, last) => ChunkedFits(m, lines, chunks, last, cfg);
  }

  lemma {:induction false} ExchangesFit(xs: seq<Exchange>, cfg: B.Config)
    requires AllShort(xs, cfg) && 0 < cfg.capacity
    ensures AllFit(P.START, AllSent(xs), cfg)
    ensures P.Run(P.START, AllSent(xs), cfg.limits) == P.Step(P.START, AllDue(xs))
    decreases |xs|
  {
    hide P.Run, Sent, Due, Short;
    if xs == [] {
      NothingRead(P.START, cfg.limits);
    } else {
      var n := |xs| - 1;
      ExchangeFits(xs[n], cfg);
      ExchangesFit(xs[..n], cfg);
      hide AllFit;
      Follow(P.START, AllSent(xs[..n]), P.START, AllDue(xs[..n]), Sent(xs[n]), cfg.limits);
      AllFitAppend(P.START, AllSent(xs[..n]), Sent(xs[n]), cfg);
    }
  }

  /** A new connection brings out exactly `messages`, and nothing is left behind. */
  ghost predicate BringsOut(stream: string, messages: seq<Message>, cfg: B.Config) {
    && B.Ready(B.INITIAL, cfg)
    && var r := B.Run(B.INITIAL, stream, cfg);
       r.messages == messages && r.next.phase == B.ParseResponseOrRequest && B.Meaning(r.next) == P.START
  }

  /** Whatever mixture of clean requests a client pipelines, with header names in any case, and bodies in
      one piece or in chunks of any size within the limit: through the bounded buffer, over any number of
      spills, comes out what is due for each of them, in order, and nothing is left behind. */
  lemma PipelineThroughBuffer(xs: seq<Exchange>, cfg: B.Config)
    requires AllShort(xs, cfg) && 0 < cfg.capacity
    ensures BringsOut(AllSent(xs), AllDue(xs), cfg)
  {
    hide P.Run, B.Run, AllSent, AllDue, Short, AllFit;
    ExchangesFit(xs, cfg);
    B.InitialReady(cfg);
    BoundedIsTransparent(B.INITIAL, AllSent(xs), cfg);
  }

  /** One chunked request: its chunks, and the parser as it was. */
  lemma ChunkedThroughBuffer(m: Message, lines: seq<Line>, chunks: seq<Chunk>, last: Size, cfg: B.Config)
    requires GoodChunked(m, lines, chunks, last, cfg.limits) && ShortLines(m, lines, cfg)
    requires ShortSizes(chunks, last, cfg)
    ensures BringsOut(ChunkedText(m, lines, chunks, last), BodyMessages(HeadOf(m), chunks), cfg)
  {
    hide P.Run, B.Run, ChunkedText, BodyMessages, AllFit, ShortHeaders, ShortSizes, GoodChunked, BringsOut;
    var x := Chunked(m, lines, chunks, last);
    ExchangeFits(x, cfg);
    PipelineThroughBuffer([x], cfg);
    assert AllSent([x][..0]) == "" && AllSent([x]) == "" + Sent(x) == Sent(x);
    assert AllDue([x][..0]) == [] && AllDue([x]) == [] + Due(x) == Due(x);
  }

  /** While no full-buffer step loses anything, the buffered assembler has the language of the grammar: it
      fails exactly on what is not whole requests and then one under way, and brings out what is due. */
  lemma BufferedLanguage(input: string, cfg: B.Config)
    requires 0 < cfg.capacity && B.Ready(B.INITIAL, cfg) && NeverLoses(B.INITIAL, input, cfg)
    ensures B.Run(B.INITIAL, input, cfg).next.phase == B.Error <==> !Readable(input, cfg.limits)
    ensures forall xs, r :: ReadsAs(input, xs, r, cfg.limits) ==>
              B.Run(B.INITIAL, input, cfg).messages == AllDue(xs) + Came(r)
  {
    hide P.Run, B.Run, NeverLoses, ReadsAs, AllDue, Came, After;
    B.InitialReady(cfg);
    TransparentUnlessLost(B.INITIAL, input, cfg);
    StreamExactly(input, cfg.limits);
  }
}
