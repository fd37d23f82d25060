/** What the limits guarantee, which declared lengths can ever complete, and what becomes of
    responses. */
module Framing {
  import opened Text
  import opened Http
  import opened StreamParser
  import opened RequestRoundTrip
  import opened ChunkedDecoding
  import opened Language

  // ------------------------------------------------------------ resource bounds

  /** How many bytes the request line of a method and a target takes. */
  function LineLength(verb: Method, uri: string): nat {
    |MethodName(verb)| + |uri| + 12
  }

  lemma LineLengthIs(m: Message)
    ensures |RequestLine(m)| == LineLength(m.verb, m.uri)
  {
  }

  /** `t` is the head of `m`: its request line, header lines that give its table, and the blank line,
      each of the two sections within its limit but for the byte that ends it. Later chunks come without
      the table. */
  ghost predicate IsHead(t: string, m: Message, lim: Limits) {
    exists lines ::
      && t == HeadSection(m, lines) && GoodRequestLine(m, lim) && GoodLines(lines)
      && (Gives(lines, m.headers) || m.headers == map[])
      && |LinesText(lines)| + 2 <= lim.headerBytes + 1
  }

  /** Some stretch of `s` is the head of `m`. */
  ghost predicate HeadedIn(s: string, m: Message, lim: Limits) {
    exists i, j :: 0 <= i <= j <= |s| && IsHead(s[i..j], m, lim)
  }

  /** The head of the message stands in the stream, and its body is within its limit. */
  ghost predicate Bounded(s: string, m: Message, lim: Limits) {
    HeadedIn(s, m, lim) && WithinBody(m.body, lim)
  }

  ghost predicate AllBounded(s: string, messages: seq<Message>, lim: Limits) {
    forall k :: 0 <= k < |messages| ==> Bounded(s, messages[k], lim)
  }

  lemma BoundedBetween(a: string, s: string, b: string, messages: seq<Message>, lim: Limits)
    requires AllBounded(s, messages, lim)
    ensures AllBounded(a + s + b, messages, lim)
  {
    hide IsHead, WithinBody;
    forall k | 0 <= k < |messages|
      ensures Bounded(a + s + b, messages[k], lim)
    {
      assert Bounded(s, messages[k], lim);
      var i, j :| 0 <= i <= j <= |s| && IsHead(s[i..j], messages[k], lim);
      assert (a + s + b)[|a| + i..|a| + j] == s[i..j];
    }
  }

  lemma BoundedAppend(s: string, a: seq<Message>, b: seq<Message>, lim: Limits)
    requires AllBounded(s, a, lim) && AllBounded(s, b, lim)
    ensures AllBounded(s, a + b, lim)
  {
    hide Bounded;
  }

  lemma FirstBounded(m: Message, lines: seq<Line>, h: Head, body: string, lim: Limits)
    requires GoodHead(m, lines, lim) && (h == HeadOf(m) || h == WithoutHeaders(HeadOf(m))) && WithinBody(body, lim)
    ensures AllBounded(HeadSection(m, lines), [Finished(h, body)], lim)
  {
    hide Gives, GoodLines, LinesText, CleanUri, WithinBody;
    var msg, t := Finished(h, body), HeadSection(m, lines);
    assert HeadText(msg, lines) == HeadText(m, lines) && GoodRequestLine(msg, lim);
    hide HeadText;
    assert t[0..|t|] == t && IsHead(t, msg, lim);
  }

  lemma {:induction false} ChunksBounded(m: Message, lines: seq<Line>, chunks: seq<Chunk>, lim: Limits)
    requires GoodHead(m, lines, lim) && GoodChunks(chunks, lim) && lim.bodyMemory <= lim.bodySize
    ensures AllBounded(HeadSection(m, lines), ChunkMessages(HeadOf(m), chunks), lim)
    decreases |chunks|
  {
    hide GoodHead, HeadSection, Bounded;
    if chunks != [] {
      var n := |chunks| - 1;
      ChunksBounded(m, lines, chunks[..n], lim);
      assert GoodChunk(chunks[n], lim);
      FirstBounded(m, lines, HeadBehind(HeadOf(m), chunks[..n]), chunks[n].data, lim);
      BoundedAppend(HeadSection(m, lines), ChunkMessages(HeadOf(m), chunks[..n]),
                    [Finished(HeadBehind(HeadOf(m), chunks[..n]), chunks[n].data)], lim);
    }
  }

  lemma DueBounded(x: Exchange, lim: Limits)
    requires Good(x, lim) && lim.bodyMemory <= lim.bodySize
    ensures AllBounded(Sent(x), Due(x), lim)
  {
    var head := HeadSection(x.message, x.lines);
    var rest := if x.Plain? then x.message.body else Encoded(x.chunks, x.last);
    assert Sent(x) == "" + head + rest by {
      Associate(HeadText(x.message, x.lines), CRLF, rest);
      assert "" + head == head;
    }
    hide HeadSection, GoodHead, AllBounded, ChunkMessages, Delimited, Sent, WithinBody, Encoded;
    var h := HeadOf(x.message);
    match x
    case Plain(m, lines) =>
      FirstBounded(m, lines, h, m.body, lim);
      assert Finished(h, m.body) == m;
      BoundedBetween("", head, rest, [m], lim);
    case Chunked(m, lines, chunks, _) =>
      ChunksBounded(m, lines, chunks, lim);
      assert WithinBody("", lim) by {
        EmptyWithin(lim);
      }
      FirstBounded(m, lines, HeadBehind(h, chunks), "", lim);
      BoundedAppend(head, ChunkMessages(h, chunks), [Finished(HeadBehind(h, chunks), "")], lim);
      BoundedBetween("", head, rest, BodyMessages(h, chunks), lim);
  }

  lemma EmptyWithin(lim: Limits)
    ensures WithinBody("", lim)
  {
  }

  lemma {:induction false} AllDueBounded(xs: seq<Exchange>, lim: Limits)
    requires AllGood(xs, lim) && lim.bodyMemory <= lim.bodySize
    ensures AllBounded(AllSent(xs), AllDue(xs), lim)
    decreases |xs|
  {
    hide Good, Sent, Due, Bounded;
    if xs != [] {
      var n := |xs| - 1;
      AllDueBounded(xs[..n], lim);
      DueBounded(xs[n], lim);
      hide AllBounded;
      var before, s := AllSent(xs[..n]), Sent(xs[n]);
      BoundedBetween("", before, s, AllDue(xs[..n]), lim);
      BoundedBetween(before, s, "", Due(xs[n]), lim);
      assert "" + before + s == before + s && before + s + "" == before + s;
      BoundedAppend(before + s, AllDue(xs[..n]), Due(xs[n]), lim);
    }
  }

  lemma CameBounded(r: Reading, lim: Limits)
    requires Valid(r, lim) && lim.bodyMemory <= lim.bodySize
    ensures AllBounded(TextOf(r), Came(r), lim)
  {
    hide HeadSection, GoodHead, Bounded, ChunkMessages, ChunksText, ListsChunked, GoodChunks, SizeLine;
    if r.SizeOf? || r.Data? || r.ChunkEnd? || r.LastLine? {
      ChunksBounded(r.m, r.lines, r.chunks, lim);
      var head, h := HeadSection(r.m, r.lines), HeadOf(r.m);
      if r.ChunkEnd? {
        FirstBounded(r.m, r.lines, HeadBehind(h, r.chunks), r.chunk.data, lim);
        BoundedAppend(head, ChunkMessages(h, r.chunks), [Finished(HeadBehind(h, r.chunks), r.chunk.data)], lim);
      }
      HeadInFront(r);
      BoundedBetween("", head, TextOf(r)[|head|..], Came(r), lim);
    }
  }

  lemma HeadInFront(r: Reading)
    requires r.SizeOf? || r.Data? || r.ChunkEnd? || r.LastLine?
    ensures var head := HeadSection(r.m, r.lines);
            head <= TextOf(r) && TextOf(r) == "" + head + TextOf(r)[|head|..]
  {
    hide HeadSection, ChunksText, SizeLine;
    assert HeadSection(r.m, r.lines) <= ChunkedSoFar(r.m, r.lines, r.chunks) <= TextOf(r);
  }

  /** Resource bounds, for every message of every stream: its head stands in the stream, with a request
      line and a header section that are each within their limit but for one byte, and its body is
      within its own. Later chunks have the head of the first. */
  lemma EmittedWithinLimits(s: string, lim: Limits)
    requires lim.bodyMemory <= lim.bodySize
    ensures AllBounded(s, Run(START, s, lim).messages, lim)
  {
    hide Run, AllBounded, AllSent, AllDue, Valid, AllGood, TextOf, Came;
    var n, xs, r := LongestReads(s, lim);
    AllDueBounded(xs, lim);
    CameBounded(r, lim);
    var rest := s[n..];
    BoundedBetween("", AllSent(xs), TextOf(r) + rest, AllDue(xs), lim);
    BoundedBetween(AllSent(xs), TextOf(r), rest, Came(r), lim);
    assert s == s[..n] + rest;
    assert "" + AllSent(xs) + (TextOf(r) + rest) == s && AllSent(xs) + TextOf(r) + rest == s;
    BoundedAppend(s, AllDue(xs), Came(r), lim);
  }

  // ----------------------------------------------------- lengths that complete

  /** A body whose declared length has been passed, or never was positive, ends in an error. */
  lemma {:induction false} BodyNeverCompletes(head: Head, length: int, t: string, s: string, lim: Limits)
    requires length <= |t| || length > lim.bodySize
    ensures Run(InBody(head, length, t), s, lim).messages == []
    decreases |s|
  {
    if s != "" {
      BodyNeverCompletes(head, length, t + [s[0]], s[1..], lim);
      FailedStays(s[1..], lim);
    }
  }

  /** Declared lengths: a message can follow exactly when the length is at least one and within
      the limit. A length of zero takes the bytes of the next requests for its body. */
  lemma LengthCompletesExactly(head: Head, length: int, lim: Limits)
    ensures (exists s :: Run(InBody(head, length, ""), s, lim).messages != []) <==> 1 <= length <= lim.bodySize
  {
    if 1 <= length <= lim.bodySize {
      var s := seq(length, _ => 'x');
      BodyText(head, length, "", s, lim);
    } else {
      forall s ensures Run(InBody(head, length, ""), s, lim).messages == [] {
        BodyNeverCompletes(head, length, "", s, lim);
      }
    }
  }

  // --------------------------------------------------------------- responses

  /** A stream that begins like a response never yields a message. */
  lemma {:induction false} ResponsesNeverComplete(p: Parser, s: string, lim: Limits)
    requires p.InStatus? || p.InReason? || p.Failed?
    ensures var r := Run(p, s, lim);
            r.messages == [] && (r.next.InStatus? || r.next.InReason? || r.next.Failed?)
    decreases |s|
  {
    if s != "" {
      ResponsesNeverComplete(Consume(p, s[0], lim).next, s[1..], lim);
    }
  }
}
