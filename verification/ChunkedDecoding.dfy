/** Chunked bodies (section 7.1 of RFC 9112, without extensions and trailers): decoding inverts
    encoding, whatever way the sizes are written. */
module ChunkedDecoding {
  import opened Text
  import opened Http
  import ListGrammar
  import opened StreamParser
  import opened RequestRoundTrip

  /** The text of a size. The assembler takes what stands behind a CR in it for a part of the line, and
      skips it. */
  datatype Size = Size(digits: string, skipped: string)

  datatype Chunk = Chunk(size: Size, data: string)

  function SizeText(z: Size): string {
    z.digits + z.skipped
  }

  /** A byte that may stand in a size line. */
  ghost predicate SizeByte(c: char) {
    Digit(c, 16) || c == '\r'
  }

  ghost predicate SizeBytes(s: string) {
    forall k :: 0 <= k < |s| ==> SizeByte(s[k])
  }

  /** Hexadecimal digits in either case, with leading zeros or none. */
  ghost predicate SizeIs(z: Size, n: nat) {
    Spells(z.digits, n, 16) && SizeBytes(z.skipped) && (z.skipped != "" ==> z.skipped[0] == '\r')
  }

  /** A chunk is complete before its last byte is held against the body limit. */
  ghost predicate GoodChunk(c: Chunk, lim: Limits) {
    && SizeIs(c.size, |c.data|) && 0 < |c.data| <= lim.bodyMemory
    && (|c.data| == 1 || |c.data| <= lim.bodySize + 1)
  }

  ghost predicate GoodChunks(chunks: seq<Chunk>, lim: Limits) {
    forall k :: 0 <= k < |chunks| ==> GoodChunk(chunks[k], lim)
  }

  ghost predicate GoodLast(last: Size, lim: Limits) {
    SizeIs(last, 0) && 0 <= lim.bodyMemory
  }

  function SizeLine(z: Size): string {
    SizeText(z) + CRLF
  }

  function ChunkText(c: Chunk): string {
    SizeLine(c.size) + (c.data + CRLF)
  }

  function ChunksText(chunks: seq<Chunk>): string {
    if chunks == [] then "" else ChunksText(chunks[..|chunks| - 1]) + ChunkText(chunks[|chunks| - 1])
  }

  function Encoded(chunks: seq<Chunk>, last: Size): string {
    ChunksText(chunks) + (SizeLine(last) + CRLF)
  }

  function WithoutHeaders(head: Head): Head {
    head.(headers := map[])
  }

  /** The head behind some chunks: the headers go with the first. */
  function HeadBehind(head: Head, chunks: seq<Chunk>): Head {
    if chunks == [] then head else WithoutHeaders(head)
  }

  /** One message for each chunk. */
  function ChunkMessages(head: Head, chunks: seq<Chunk>): seq<Message> {
    if chunks == [] then []
    else
      var before := chunks[..|chunks| - 1];
      ChunkMessages(head, before) + [Finished(HeadBehind(head, before), chunks[|chunks| - 1].data)]
  }

  /** And an empty one at the end. */
  function BodyMessages(head: Head, chunks: seq<Chunk>): seq<Message> {
    ChunkMessages(head, chunks) + [Finished(HeadBehind(head, chunks), "")]
  }

  // -------------------------------------------------------------------- size lines

  lemma {:induction false} SizeBytesRead(head: Head, t: string, s: string, lim: Limits)
    requires SizeBytes(s)
    ensures Run(InChunkSize(head, t), s, lim) == Silent(InChunkSize(head, t + s))
    decreases |s|
  {
    hide FromChars, Digit;
    if s == "" {
      assert t + s == t;
    } else {
      assert SizeByte(s[0]);
      DigitExactly(s[0], 16);
      SizeBytesRead(head, t + [s[0]], s[1..], lim);
      assert (t + [s[0]]) + s[1..] == t + s;
    }
  }

  lemma DigitsAreSizeBytes(digits: string, n: nat)
    requires Spells(digits, n, 16)
    ensures digits != "" && SizeBytes(digits)
  {
    hide Spells, Digit, DigitValue;
    ValueExactly(digits, n, 16);
    forall k | 0 <= k < |digits|
      ensures SizeByte(digits[k])
    {
      DigitExactly(digits[k], 16);
    }
  }

  lemma CrIsNoDigit(s: string)
    requires s != "" ==> s[0] == '\r'
    ensures !DigitFollows(s, 16)
  {
    if s != "" {
      DigitExactly(s[0], 16);
    }
  }

  lemma SizeIsNumeral(z: Size, n: nat)
    requires SizeIs(z, n)
    ensures Numeral(SizeText(z), n, 16) && SizeText(z) != "" && SizeBytes(SizeText(z))
    ensures FromChars(SizeText(z), 16) == if n < 0x8000_0000 then Some(n) else None
  {
    hide Spells, FromChars, SizeByte, DigitFollows;
    CrIsNoDigit(z.skipped);
    DigitsAreSizeBytes(z.digits, n);
    assert SplitsAs(SizeText(z), n, 16, z.digits, z.skipped);
    NumeralRead(SizeText(z), n, 16);
  }

  function SizeLeads(head: Head, n: nat, lim: Limits): Parser {
    if n > lim.bodyMemory then Failed else if n > 0 then InChunk(head, n, "") else InLastLine(head, "")
  }

  lemma SizeLineEnd(head: Head, z: Size, n: nat, lim: Limits)
    requires SizeIs(z, n)
    ensures Consume(InChunkSize(head, SizeText(z) + "\r"), '\n', lim)
            == Silent(SizeLeads(head, n, lim))
  {
    hide FromChars, SizeIs, SizeText, SizeByte, Numeral, IsDigit;
    SizeIsNumeral(z, n);
    var text := SizeText(z) + "\r";
    assert Front(text) == SizeText(z) && EndsWithCr(text);
  }

  /** A size line: a size over the limit is refused, however large; any other opens a chunk, and zero the
      end of the body. */
  lemma ReadSize(head: Head, z: Size, n: nat, lim: Limits)
    requires SizeIs(z, n)
    ensures Run(InChunkSize(head, ""), SizeLine(z), lim)
            == Silent(SizeLeads(head, n, lim))
  {
    hide Run, Consume, SizeIs, SizeText, SizeByte;
    SizeIsNumeral(z, n);
    var text := SizeText(z) + "\r";
    assert SizeBytes(text) by {
      CrIsSizeByte();
    }
    assert "" + text == text && SizeLine(z) == text + "\n";
    SizeBytesRead(head, "", text, lim);
    SizeLineEnd(head, z, n, lim);
    Then(InChunkSize(head, ""), text, InChunkSize(head, text), "\n", lim);
    OneByte(InChunkSize(head, text), '\n', lim);
  }

  lemma CrIsSizeByte()
    ensures SizeByte('\r')
  {
  }

  // ------------------------------------------------------------------------ chunks

  lemma {:induction false} DataText(head: Head, length: nat, t: string, s: string, lim: Limits)
    requires s != "" && |t| + |s| == length && (|s| == 1 || length <= lim.bodySize + 1)
    ensures Run(InChunk(head, length, t), s, lim)
            == Step(InChunkEnd(WithoutHeaders(head), ""), [Finished(head, t + s)])
    decreases |s|
  {
    if |s| == 1 {
      assert s[1..] == "" && t + [s[0]] == t + s;
    } else {
      assert (t + [s[0]]) + s[1..] == t + s;
      DataText(head, length, t + [s[0]], s[1..], lim);
    }
  }

  lemma ChunkBreak(head: Head, lim: Limits)
    ensures Run(InChunkEnd(head, ""), CRLF, lim) == Silent(InChunkSize(head, ""))
    ensures Run(InLastLine(head, ""), CRLF, lim) == Step(START, [Finished(head, "")])
  {
    ReadBreak(InChunkEnd(head, ""), InChunkEnd(head, "\r"), lim);
    ReadBreak(InLastLine(head, ""), InLastLine(head, "\r"), lim);
  }

  lemma Follow(p: Parser, a: string, q: Parser, m: seq<Message>, b: string, lim: Limits)
    requires Run(p, a, lim) == Step(q, m)
    ensures Run(p, a + b, lim) == Step(Run(q, b, lim).next, m + Run(q, b, lim).messages)
  {
    hide Run;
    RunAppend(p, a, b, lim);
  }

  lemma ReadData(head: Head, c: Chunk, lim: Limits)
    requires GoodChunk(c, lim)
    ensures Run(InChunkSize(head, ""), SizeLine(c.size) + c.data, lim)
            == Step(InChunkEnd(WithoutHeaders(head), ""), [Finished(head, c.data)])
  {
    hide Run, SizeIs, SizeLine;
    ReadSize(head, c.size, |c.data|, lim);
    DataText(head, |c.data|, "", c.data, lim);
    assert "" + c.data == c.data;
    Then(InChunkSize(head, ""), SizeLine(c.size), InChunk(head, |c.data|, ""), c.data, lim);
  }

  lemma ReadChunk(head: Head, c: Chunk, lim: Limits)
    requires GoodChunk(c, lim)
    ensures Run(InChunkSize(head, ""), ChunkText(c), lim)
            == Step(InChunkSize(WithoutHeaders(head), ""), [Finished(head, c.data)])
  {
    hide Run, GoodChunk, SizeLine;
    ReadData(head, c, lim);
    ChunkBreak(WithoutHeaders(head), lim);
    assert ChunkText(c) == (SizeLine(c.size) + c.data) + CRLF;
    Follow(InChunkSize(head, ""), SizeLine(c.size) + c.data, InChunkEnd(WithoutHeaders(head), ""),
           [Finished(head, c.data)], CRLF, lim);
  }

  lemma {:induction false} ReadChunks(head: Head, chunks: seq<Chunk>, lim: Limits)
    requires GoodChunks(chunks, lim)
    ensures Run(InChunkSize(head, ""), ChunksText(chunks), lim)
            == Step(InChunkSize(HeadBehind(head, chunks), ""), ChunkMessages(head, chunks))
    decreases |chunks|
  {
    hide Run, GoodChunk, ChunkText;
    if chunks == [] {
      NothingRead(InChunkSize(head, ""), lim);
    } else {
      var n := |chunks| - 1;
      ReadChunks(head, chunks[..n], lim);
      var h := HeadBehind(head, chunks[..n]);
      ReadChunk(h, chunks[n], lim);
      Follow(InChunkSize(head, ""), ChunksText(chunks[..n]), InChunkSize(h, ""), ChunkMessages(head, chunks[..n]),
             ChunkText(chunks[n]), lim);
    }
  }

  lemma ReadLast(head: Head, last: Size, lim: Limits)
    requires GoodLast(last, lim)
    ensures Run(InChunkSize(head, ""), SizeLine(last) + CRLF, lim) == Step(START, [Finished(head, "")])
  {
    hide Run, SizeIs, SizeLine;
    ReadSize(head, last, 0, lim);
    ChunkBreak(head, lim);
    Then(InChunkSize(head, ""), SizeLine(last), InLastLine(head, ""), CRLF, lim);
  }

  /** Decoding: the chunks in order, then one empty body, and the parser as it was at the start. */
  lemma ChunksReadBack(head: Head, chunks: seq<Chunk>, last: Size, lim: Limits)
    requires GoodChunks(chunks, lim) && GoodLast(last, lim)
    ensures Run(InChunkSize(head, ""), Encoded(chunks, last), lim) == Step(START, BodyMessages(head, chunks))
  {
    hide Run, GoodChunks, GoodLast, SizeLine, ChunksText, ChunkMessages;
    ReadChunks(head, chunks, lim);
    ReadLast(HeadBehind(head, chunks), last, lim);
    Follow(InChunkSize(head, ""), ChunksText(chunks), InChunkSize(HeadBehind(head, chunks), ""),
           ChunkMessages(head, chunks), SizeLine(last) + CRLF, lim);
  }

  // ---------------------------------------------------------------- whole requests

  function ChunkedText(m: Message, lines: seq<Line>, chunks: seq<Chunk>, last: Size): string {
    HeadText(m, lines) + (CRLF + Encoded(chunks, last))
  }

  /** A clean chunked request within the limits. */
  ghost predicate GoodChunked(m: Message, lines: seq<Line>, chunks: seq<Chunk>, last: Size, lim: Limits) {
    GoodHead(m, lines, lim) && ListsChunked(m.headers) && GoodChunks(chunks, lim) && GoodLast(last, lim)
  }

  /** What a request has in its first line and its header table. */
  function HeadOf(m: Message): Head {
    Head(m.version, m.verb, m.uri, m.headers, 0)
  }

  lemma ReadChunkedEnd(h: Head, lim: Limits)
    requires ListsChunked(h.headers) && h.bytes + 1 <= lim.headerBytes
    ensures Run(InHeaderName(h, ""), CRLF, lim) == Silent(InChunkSize(h.(bytes := h.bytes + 2), ""))
  {
    hide Run, ListsChunked, EndOfHeaders;
    ReadBlankLine(h, lim);
    HeadersLead(h.(bytes := h.bytes + 2), 0, lim);
  }

  lemma {:induction false} BytesDoNotShow(a: Head, b: Head, chunks: seq<Chunk>)
    requires a == b.(bytes := a.bytes)
    ensures ChunkMessages(a, chunks) == ChunkMessages(b, chunks) && BodyMessages(a, chunks) == BodyMessages(b, chunks)
    decreases |chunks|
  {
    if chunks != [] {
      BytesDoNotShow(a, b, chunks[..|chunks| - 1]);
    }
  }

  /** A whole chunked request: its headers, among them a transfer coding that lists `chunked`, come with
      the first chunk; the bodies are the chunks and one empty body. */
  lemma ChunkedRequestReadBack(m: Message, lines: seq<Line>, chunks: seq<Chunk>, last: Size, lim: Limits)
    requires GoodChunked(m, lines, chunks, last, lim)
    ensures Run(START, ChunkedText(m, lines, chunks, last), lim) == Step(START, BodyMessages(HeadOf(m), chunks))
  {
    hide Run, HeadText, CleanUri, GoodLines, LinesText, Gives, ListsChunked;
    hide Encoded, GoodChunks, GoodLast, BodyMessages;
    ReadHead(m, lines, lim);
    StoredExactly(lines, m.headers);
    var h, body := HeadAt(m, lines), Encoded(chunks, last);
    Then(START, HeadText(m, lines), InHeaderName(h, ""), CRLF + body, lim);
    ReadChunkedEnd(h, lim);
    var h2 := h.(bytes := h.bytes + 2);
    Then(InHeaderName(h, ""), CRLF, InChunkSize(h2, ""), body, lim);
    ChunksReadBack(h2, chunks, last, lim);
    BytesDoNotShow(h2, HeadOf(m), chunks);
  }

  /** The header that chunked requests are sent with is one of those that list `chunked`. */
  lemma PlainChunked(headers: Headers)
    requires "transfer-encoding" in headers && headers["transfer-encoding"] == "chunked"
    ensures ListsChunked(headers)
  {
    var item := ListGrammar.Plain("", "chunked", "");
    assert ListGrammar.ItemText(item) == "chunked" && "chunked" + "" == "chunked";
    assert ListGrammar.ListsAs("chunked", "chunked", [item], "");
  }
}
