/** What the full-buffer step does to streams whose lines are not short. */
module CompactionFaults {
  import opened Text
  import opened Http
  import P = StreamParser
  import B = BoundedParser
  import opened RequestRoundTrip
  import opened ChunkedDecoding

  lemma SilentStep(p: P.Parser, s: string, q: P.Parser, lim: P.Limits)
    requires s != "" && P.Run(p, s, lim) == P.Silent(q) && !q.Failed?
    ensures var o := P.Consume(p, s[0], lim);
            o.messages == [] && !o.next.Failed? && P.Run(o.next, s[1..], lim) == P.Silent(q)
  {
    hide P.Consume;
    P.FailedStays(s[1..], lim);
  }

  lemma NotFullStep(m: B.Machine, c: char, cfg: B.Config, q: P.Parser)
    requires B.Ready(m, cfg) && m.phase != B.Error && |m.held| + 1 < cfg.capacity
    requires P.Consume(B.Meaning(m), c, cfg.limits) == P.Silent(q) && !q.Failed?
    ensures var o := B.Next(m, c, cfg);
            && o.messages == [] && o.next.phase != B.Error && B.Meaning(o.next) == q && o.next.held == m.held + [c]
  {
    hide P.Consume, B.Sound, B.Byte, B.Meaning, B.Full;
    B.ByteFollows(m, c, cfg);
    SilentHolds(m, c, cfg);
    ErrorMeaning(B.Byte(m, c, cfg.limits).next);
  }

  /** Until the buffer is full, the machine follows the grammar and holds all it was fed. */
  lemma {:induction false} FollowsUntilFull(m: B.Machine, s: string, q: P.Parser, cfg: B.Config)
    requires B.Ready(m, cfg) && m.phase != B.Error && |m.held| + |s| < cfg.capacity
    requires P.Run(B.Meaning(m), s, cfg.limits) == P.Silent(q) && !q.Failed?
    ensures var r := B.Run(m, s, cfg);
            r.messages == [] && B.Meaning(r.next) == q && r.next.held == m.held + s && r.next.phase != B.Error
    decreases |s|
  {
    hide P.Consume, B.Sound, B.Meaning, B.Next;
    if s == "" {
      assert m.held + s == m.held;
    } else {
      SilentStep(B.Meaning(m), s, q, cfg.limits);
      NotFullStep(m, s[0], cfg, P.Consume(B.Meaning(m), s[0], cfg.limits).next);
      FollowsUntilFull(B.Next(m, s[0], cfg).next, s[1..], q, cfg);
      assert (m.held + [s[0]]) + s[1..] == m.held + s;
    }
  }

  lemma ErrorMeaning(m: B.Machine)
    requires B.Ordered(m)
    ensures B.Meaning(m).Failed? <==> m.phase == B.Error
  {
  }

  lemma SilentHolds(m: B.Machine, c: char, cfg: B.Config)
    requires B.Ready(m, cfg) && m.phase != B.Error
    ensures var o := B.Byte(m, c, cfg.limits);
            o.next.phase == B.Error || o.messages != [] || o.next.held == m.held + [c]
  {
    hide TrimLeft, P.IsChunked, P.ParseNumber, FromChars, ParseMethod, VersionOf, B.Sound;
  }

  // -------------------------------------------------------- a line that is damaged

  /** A header line of `n` letters, not yet ended, behind the shortest request line. */
  function LongLine(n: nat): string {
    seq(n, k => if k < 16 then 'a' else 'b')
  }

  const SHORT_REQUEST := Message(Http11, GET, "/", map[], "")

  lemma NameRead(m: Message, n: nat, lim: P.Limits)
    requires Known(m.verb) && m.version != NoVersion && CleanUri(m.uri)
    requires |RequestLine(m)| <= lim.requestLine + 1 && n <= lim.headerBytes
    ensures P.Run(P.START, RequestLine(m) + LongLine(n), lim)
            == P.Silent(P.InHeaderName(P.Head(m.version, m.verb, m.uri, map[], n), LongLine(n)))
  {
    ReadRequestLine(m, lim);
    var h := P.Head(m.version, m.verb, m.uri, map[], 0);
    NameText(h, "", LongLine(n), lim);
    assert "" + LongLine(n) == LongLine(n);
    hide P.Run, RequestLine, LongLine;
    P.Then(P.START, RequestLine(m), P.InHeaderName(h, ""), LongLine(n), lim);
  }

  lemma LongLineRead(n: nat, lim: P.Limits)
    requires 15 <= lim.requestLine && n <= lim.headerBytes
    ensures |RequestLine(SHORT_REQUEST)| == 16
    ensures P.Run(P.START, RequestLine(SHORT_REQUEST) + LongLine(n), lim)
            == P.Silent(P.InHeaderName(P.Head(Http11, GET, "/", map[], n), LongLine(n)))
  {
    assert RequestLine(SHORT_REQUEST) == "GET / HTTP/1.1\r\n";
    NameRead(SHORT_REQUEST, n, lim);
  }

  /** The compaction as written is wrong on reachable states: a buffer of at least 34 bytes, a
      request line of 16, and a header line that fills the rest. The line fits in the buffer, yet
      the name that is being read is no longer the name that was sent. */
  lemma LongLineIsDamaged(cfg: B.Config)
    requires cfg.compaction == B.AsWritten && 34 <= cfg.capacity
    requires 15 <= cfg.limits.requestLine && cfg.capacity - 16 <= cfg.limits.headerBytes
    ensures var stream := RequestLine(SHORT_REQUEST) + LongLine(cfg.capacity - 16);
            && |LongLine(cfg.capacity - 16)| < cfg.capacity
            && B.Ready(B.INITIAL, cfg)
            && B.Run(B.INITIAL, stream, cfg).next.phase == B.ParseHeaderName
            && B.Meaning(B.Run(B.INITIAL, stream, cfg).next) != P.Run(P.START, stream, cfg.limits).next
  {
    var n := cfg.capacity - 16;
    var most := RequestLine(SHORT_REQUEST) + LongLine(n - 1);
    LongLineRead(n, cfg.limits);
    LongLineRead(n - 1, cfg.limits);
    LongLineSnoc(n);
    hide P.Run, B.Run, B.Sound, B.Meaning, RequestLine, LongLine;
    B.InitialReady(cfg);
    var q := P.InHeaderName(P.Head(Http11, GET, "/", map[], n - 1), LongLine(n - 1));
    FollowsUntilFull(B.INITIAL, most, q, cfg);
    var m := B.Run(B.INITIAL, most, cfg).next;
    B.RunAppend(B.INITIAL, most, ['b'], cfg);
    LastByte(m, n, cfg);
  }

  lemma LongLineSnoc(n: nat)
    requires n > 16
    ensures |LongLine(n)| == n && |LongLine(n - 1)| == n - 1
    ensures RequestLine(SHORT_REQUEST) + LongLine(n) == RequestLine(SHORT_REQUEST) + LongLine(n - 1) + ['b']
  {
    assert LongLine(n) == LongLine(n - 1) + ['b'];
  }

  lemma LastByte(m: B.Machine, n: nat, cfg: B.Config)
    requires cfg.compaction == B.AsWritten && n == cfg.capacity - 16 && 18 <= n <= cfg.limits.headerBytes
    requires B.Ready(m, cfg) && m.phase != B.Error
    requires |m.held| == cfg.capacity - 1
    requires B.Meaning(m) == P.InHeaderName(P.Head(Http11, GET, "/", map[], n - 1), LongLine(n - 1))
    ensures var r := B.Run(m, ['b'], cfg).next;
            && r.phase == B.ParseHeaderName
            && B.Meaning(r) != P.InHeaderName(P.Head(Http11, GET, "/", map[], n), LongLine(n))
  {
    assert m.phase == B.ParseHeaderName && m.start == 16 == m.checkpoint;
    var o := B.Byte(m, 'b', cfg.limits);
    assert ['b'][1..] == "";
    assert o.next == m.(count := m.count + 1, headerBytes := m.headerBytes + 1, held := m.held + ['b']);
    var f := B.Full(o.next, B.AsWritten);
    assert m.held[16..] == LongLine(n - 1);
    assert m.held[16] == LongLine(n - 1)[0];
    assert f.Token()[16] == o.next.held[16] == 'a';
  }

  // ------------------------------------------------- a copy that leaves the block

  /** At the byte `c` the buffer fills up and the compaction as written reads past its end. */
  predicate OverReads(m: B.Machine, c: char, cfg: B.Config)
    requires B.Ordered(m)
  {
    var o := B.Byte(m, c, cfg.limits).next;
    && B.IsFull(o, cfg) && o.phase != B.ParseBody && o.phase != B.ParseChunk
    && 0 < o.checkpoint && Memmove(o.held, o.checkpoint, o.checkpoint) == None
  }

  /** Any request line longer than half the buffer, and a header line that fills the rest: both
      within the limits, and yet the compaction reads past the end of the buffer. */
  lemma LongRequestLineOverReads(m: Message, cfg: B.Config)
    requires Known(m.verb) && m.version != NoVersion && CleanUri(m.uri)
    requires |RequestLine(m)| < cfg.capacity < 2 * |RequestLine(m)|
    requires |RequestLine(m)| <= cfg.limits.requestLine + 1 && cfg.capacity - |RequestLine(m)| <= cfg.limits.headerBytes
    ensures var stream := RequestLine(m) + LongLine(cfg.capacity - |RequestLine(m)| - 1);
            && B.Ready(B.INITIAL, cfg) && B.Ready(B.Run(B.INITIAL, stream, cfg).next, cfg)
            && OverReads(B.Run(B.INITIAL, stream, cfg).next, 'b', cfg)
  {
    var n := cfg.capacity - |RequestLine(m)| - 1;
    NameRead(m, n, cfg.limits);
    assert |LongLine(n)| == n;
    hide P.Run, B.Run, B.Sound, B.Meaning, RequestLine, LongLine;
    B.InitialReady(cfg);
    var q := P.InHeaderName(P.Head(m.version, m.verb, m.uri, map[], n), LongLine(n));
    FollowsUntilFull(B.INITIAL, RequestLine(m) + LongLine(n), q, cfg);
    var s := B.Run(B.INITIAL, RequestLine(m) + LongLine(n), cfg).next;
    assert B.INITIAL.held == "" && "" + (RequestLine(m) + LongLine(n)) == RequestLine(m) + LongLine(n);
    FullOfName(s, |RequestLine(m)|, n, q, cfg);
  }

  lemma FullOfName(s: B.Machine, r: nat, n: nat, q: P.Parser, cfg: B.Config)
    requires B.Ready(s, cfg) && s.phase != B.Error && q.InHeaderName? && |q.text| == n && q.head.bytes == n
    requires B.Meaning(s) == q && |s.held| == r + n == cfg.capacity - 1
    requires 0 < r && cfg.capacity < 2 * r && n + 1 <= cfg.limits.headerBytes
    ensures OverReads(s, 'b', cfg)
  {
    assert s.phase == B.ParseHeaderName && s.start == r == s.checkpoint;
    assert B.Byte(s, 'b', cfg.limits).next
        == s.(count := s.count + 1, headerBytes := s.headerBytes + 1, held := s.held + ['b']);
  }

  /** So there is such a stream for every buffer of at least 30 bytes, if the limits let it through. */
  lemma EveryBufferCanBeOverRead(cfg: B.Config) returns (stream: string)
    requires 30 <= cfg.capacity <= 2 * cfg.limits.requestLine && cfg.capacity <= cfg.limits.headerBytes
    ensures B.Ready(B.INITIAL, cfg) && B.Ready(B.Run(B.INITIAL, stream, cfg).next, cfg)
    ensures OverReads(B.Run(B.INITIAL, stream, cfg).next, 'b', cfg)
  {
    var m := Message(Http11, GET, seq(cfg.capacity / 2 - 14, _ => 'u'), map[], "");
    assert |RequestLine(m)| == cfg.capacity / 2 + 1;
    stream := RequestLine(m) + LongLine(cfg.capacity - |RequestLine(m)| - 1);
    LongRequestLineOverReads(m, cfg);
  }

  // ------------------------------------------------ a look before the block

  /** At the byte `c` the blank-line test looks at the byte before the current one, which is before
      the buffer. */
  predicate LooksBefore(s: B.Machine, c: char) {
    AtFront(s) && c == '\n'
  }

  /** The next byte of a header line is to be read at the front of the buffer. */
  predicate AtFront(s: B.Machine) {
    s.phase == B.ParseHeaderName && s.held == ""
  }

  /** That comes about exactly when the buffer fills up with the last byte of a line. */
  lemma AtFrontExactly(s: B.Machine, c: char, cfg: B.Config)
    requires B.Ready(s, cfg)
    ensures var o := B.Byte(s, c, cfg.limits).next;
            AtFront(B.Next(s, c, cfg).next)
            <==> B.IsFull(o, cfg) && o.phase == B.ParseHeaderName && o.checkpoint == |o.held|
  {
    B.ByteFollows(s, c, cfg);
    NameHolds(s, c, cfg);
    hide B.Byte, B.Moved, B.Meaning, P.Consume;
  }

  lemma NameHolds(s: B.Machine, c: char, cfg: B.Config)
    requires B.Ready(s, cfg)
    ensures var o := B.Byte(s, c, cfg.limits).next; o.phase == B.ParseHeaderName ==> o.held != ""
  {
    hide TrimLeft, P.IsChunked, P.ParseNumber, FromChars, ParseMethod, VersionOf, ToLower, P.Emplace, IsDigit, B.Sound;
    if s.phase == B.ParseHeaderName {
      hide B.MethodByte, B.StatusByte, B.UriByte, B.VersionByte, B.HeaderValueByte, B.BodyByte, B.ChunkSizeByte;
      hide B.ChunkByte;
    } else if s.phase == B.ParseHeaderValue || s.phase == B.ParseRequestHttpVersion {
      hide B.MethodByte, B.StatusByte, B.UriByte, B.HeaderNameByte, B.BodyByte, B.ChunkSizeByte, B.ChunkByte;
    } else {
      hide B.VersionByte, B.HeaderNameByte, B.HeaderValueByte;
    }
  }

  /** So it does behind any request line that is as long as the buffer and within its limit. */
  lemma FullLineLooksBefore(m: Message, cfg: B.Config)
    requires Known(m.verb) && m.version != NoVersion && CleanUri(m.uri)
    requires |RequestLine(m)| == cfg.capacity && cfg.capacity <= cfg.limits.requestLine + 1
    ensures B.Ready(B.INITIAL, cfg) && LooksBefore(B.Run(B.INITIAL, RequestLine(m), cfg).next, '\n')
  {
    ReadRequestLine(m, cfg.limits);
    var line := RequestLine(m);
    assert 2 < |line| && line[|line| - 1] == '\n';
    hide P.Run, P.Consume, B.Run, B.Sound, B.Meaning, B.Byte, RequestLine, B.Ready;
    var most, h := line[..|line| - 1], P.Head(m.version, m.verb, m.uri, map[], 0);
    assert line == most + ['\n'];
    B.InitialReady(cfg);
    P.RunAppend(P.START, most, ['\n'], cfg.limits);
    P.OneByte(P.Run(P.START, most, cfg.limits).next, '\n', cfg.limits);
    var q := P.Run(P.START, most, cfg.limits).next;
    NotFailed(q, '\n', h, cfg.limits);
    FollowsUntilFull(B.INITIAL, most, q, cfg);
    BoundedThen(B.INITIAL, most, ['\n'], cfg);
    LineFillsBuffer(B.Run(B.INITIAL, most, cfg).next, h, cfg);
  }

  lemma NotFailed(q: P.Parser, c: char, h: P.Head, lim: P.Limits)
    requires P.Consume(q, c, lim).next == P.InHeaderName(h, "")
    ensures !q.Failed?
  {
  }

  lemma AtLineStart(o: B.Machine, h: P.Head, cfg: B.Config)
    requires B.Ordered(o) && B.Sound(o, cfg) && B.Meaning(o) == P.InHeaderName(h, "") && o.held != ""
    ensures o.phase == B.ParseHeaderName && o.start == |o.held| == o.checkpoint
  {
  }

  lemma LineFillsBuffer(s: B.Machine, h: P.Head, cfg: B.Config)
    requires B.Ready(s, cfg) && s.phase != B.Error && |s.held| == cfg.capacity - 1
    requires P.Consume(B.Meaning(s), '\n', cfg.limits) == P.Silent(P.InHeaderName(h, ""))
    ensures AtFront(B.Run(s, ['\n'], cfg).next)
  {
    hide B.Byte, P.Consume, B.Moved, B.Sound, B.Meaning;
    B.ByteFollows(s, '\n', cfg);
    SilentHolds(s, '\n', cfg);
    var o := B.Byte(s, '\n', cfg.limits);
    ErrorMeaning(o.next);
    AtLineStart(o.next, h, cfg);
    assert ['\n'][1..] == "";
  }

  // ---------------------------------------------------------- a stale checkpoint

  predicate BehindRequestLine(phase: B.Phase) {
    phase in {B.ParseHeaderName, B.ParseBody, B.ParseChunkSize, B.ParseChunk,
              B.ParseChunkSkipLine, B.ParseEndOfChunkedRequest}
  }

  /** From the header section on, only the end of a header line moves the checkpoint. */
  lemma CheckpointStays(m: B.Machine, c: char, lim: P.Limits)
    requires B.Ordered(m) && BehindRequestLine(m.phase) && c != ':'
    requires B.Byte(m, c, lim).messages == [] && B.Byte(m, c, lim).next.phase != B.Error
    ensures var o := B.Byte(m, c, lim).next;
            o.checkpoint == m.checkpoint && BehindRequestLine(o.phase)
  {
    hide TrimLeft, P.IsChunked, P.ParseNumber, FromChars;
  }

  lemma NextKeepsCheckpoint(m: B.Machine, c: char, cfg: B.Config, q: P.Parser)
    requires B.Ready(m, cfg) && BehindRequestLine(m.phase) && |m.held| + 1 < cfg.capacity && c != ':'
    requires P.Consume(B.Meaning(m), c, cfg.limits) == P.Silent(q) && !q.Failed?
    ensures var o := B.Next(m, c, cfg);
            && o.messages == [] && B.Meaning(o.next) == q && o.next.held == m.held + [c]
            && o.next.checkpoint == m.checkpoint && BehindRequestLine(o.next.phase) && o.next.phase != B.Error
  {
    hide P.Consume, B.Sound, B.Byte, B.Meaning, B.Full;
    NotFullStep(m, c, cfg, q);
    B.ByteFollows(m, c, cfg);
    SilentHolds(m, c, cfg);
    ErrorMeaning(B.Byte(m, c, cfg.limits).next);
    CheckpointStays(m, c, cfg.limits);
  }

  lemma {:induction false} FollowsWithCheckpoint(m: B.Machine, s: string, q: P.Parser, cfg: B.Config)
    requires B.Ready(m, cfg) && BehindRequestLine(m.phase) && |m.held| + |s| < cfg.capacity && ':' !in s
    requires P.Run(B.Meaning(m), s, cfg.limits) == P.Silent(q) && !q.Failed?
    ensures var r := B.Run(m, s, cfg);
            && r.messages == [] && B.Meaning(r.next) == q && r.next.held == m.held + s
            && r.next.checkpoint == m.checkpoint && BehindRequestLine(r.next.phase)
    decreases |s|
  {
    hide P.Consume, B.Sound, B.Meaning, B.Next, BehindRequestLine;
    if s == "" {
      assert m.held + s == m.held;
    } else {
      SilentStep(B.Meaning(m), s, q, cfg.limits);
      NextKeepsCheckpoint(m, s[0], cfg, P.Consume(B.Meaning(m), s[0], cfg.limits).next);
      FollowsWithCheckpoint(B.Next(m, s[0], cfg).next, s[1..], q, cfg);
      assert (m.held + [s[0]]) + s[1..] == m.held + s;
    }
  }

  /** A one and zeros: a chunk size of any length. */
  function LongSize(n: nat): string {
    seq(n, k => if k == 0 then '1' else '0')
  }

  /** The head of a chunked request, and its one chunk of one byte. */
  function OneChunk(head: string): string {
    head + (CRLF + "1" + CRLF) + "x"
  }

  ghost predicate ChunkedHead(m: Message, lines: seq<Line>, lim: P.Limits) {
    GoodHead(m, lines, lim) && ListsChunked(m.headers) && 1 <= lim.bodyMemory <= lim.bodySize
  }

  lemma SizeRead(h: P.Head, lim: P.Limits)
    requires ListsChunked(h.headers) && h.bytes + 1 <= lim.headerBytes && 1 <= lim.bodyMemory
    ensures P.Run(P.InHeaderName(h, ""), CRLF + "1" + CRLF, lim)
            == P.Silent(P.InChunk(h.(bytes := h.bytes + 2), 1, ""))
  {
    ReadChunkedEnd(h, lim);
    var h2 := h.(bytes := h.bytes + 2);
    var one := Size("1", "");
    OneIsOne();
    ReadSize(h2, one, 1, lim);
    hide P.Run, ListsChunked, SizeIs;
    assert CRLF + "1" + CRLF == CRLF + SizeLine(one);
    P.Then(P.InHeaderName(h, ""), CRLF, P.InChunkSize(h2, ""), SizeLine(one), lim);
  }

  lemma OneIsOne()
    ensures SizeIs(Size("1", ""), 1)
  {
    assert Zeros(0) + Print(1, 16) == "1" by {
      assert Print(1, 16) == [DigitChar(1)];
    }
    SameAsItself("1");
    assert Spells("1", 1, 16) by {
      assert SameButCase("1", Zeros(0) + Print(1, 16));
    }
  }

  lemma LongSizeRead(h: P.Head, n: nat, lim: P.Limits)
    ensures P.Run(P.InChunkEnd(h, ""), CRLF + LongSize(n), lim) == P.Silent(P.InChunkSize(h, LongSize(n)))
  {
    ChunkBreak(h, lim);
    assert SizeBytes(LongSize(n)) by {
      DigitExactly('1', 16);
      DigitExactly('0', 16);
    }
    SizeBytesRead(h, "", LongSize(n), lim);
    assert "" + LongSize(n) == LongSize(n);
    hide P.Run, LongSize;
    P.Then(P.InChunkEnd(h, ""), CRLF, P.InChunkSize(h, ""), LongSize(n), lim);
  }

  /** The chunk of one byte leaves the buffer, and the checkpoint stays what it was. */
  lemma ChunkLeaves(s: B.Machine, h: P.Head, cfg: B.Config)
    requires B.Ready(s, cfg) && s.phase != B.Error && B.Meaning(s) == P.InChunk(h, 1, "")
    ensures var r := B.Run(s, "x", cfg);
            && r.messages == [P.Finished(h, "x")] && r.next.phase == B.ParseChunkSkipLine
            && r.next.held == "" && r.next.checkpoint == s.checkpoint
            && B.Meaning(r.next) == P.InChunkEnd(h.(headers := map[]), "")
  {
    assert "x"[1..] == "" && s.body + s.Token() == "" && s.body + s.Token() + ['x'] == "x";
    assert s.count == 0;
    var o := B.Byte(s, 'x', cfg.limits);
    assert o.messages == [P.Finished(h, "x")];
    assert o.messages + [] == o.messages;
    assert B.Next(s, 'x', cfg) == o;
  }

  lemma DigitExtends(s: B.Machine, lim: P.Limits)
    requires B.Ordered(s) && s.phase == B.ParseChunkSize
    ensures B.Byte(s, '0', lim) == P.Silent(s.(count := s.count + 1, held := s.held + ['0']))
  {
    hide FromChars;
  }

  /** The byte of a size line that fills the buffer: the stale checkpoint cuts the line short. */
  lemma LastDigit(s: B.Machine, h: P.Head, n: nat, cfg: B.Config)
    requires B.Ready(s, cfg) && s.phase != B.Error && |s.held| == n + 2 == cfg.capacity - 1
    requires B.Meaning(s) == P.InChunkSize(h, LongSize(n)) && 2 < s.checkpoint <= cfg.capacity
    ensures var r := B.Run(s, "0", cfg).next;
            r.phase == B.ParseChunkSize && B.Meaning(r) != P.InChunkSize(h, LongSize(n + 1))
  {
    assert s.phase == B.ParseChunkSize && |LongSize(n)| == n && s.start == 2;
    DigitExtends(s, cfg.limits);
    hide B.Byte, B.Sound, LongSize;
    var o := B.Byte(s, '0', cfg.limits);
    assert "0"[1..] == "";
    assert B.Next(s, '0', cfg).next == B.Full(o.next, cfg.compaction);
    assert |B.Full(o.next, cfg.compaction).Token()| == cfg.capacity - s.checkpoint < n + 1;
    assert |LongSize(n + 1)| == n + 1 by {
      LongSizeLength(n + 1);
    }
  }

  lemma LongSizeLength(n: nat)
    ensures |LongSize(n)| == n
  {
  }

  lemma BoundedThen(s: B.Machine, a: string, b: string, cfg: B.Config)
    requires B.Ready(s, cfg)
    ensures B.Run(s, a + b, cfg).next == B.Run(B.Run(s, a, cfg).next, b, cfg).next
  {
    hide B.Run, B.Ready;
    B.RunAppend(s, a, b, cfg);
  }

  lemma StreamThen(p: P.Parser, a: string, b: string, lim: P.Limits)
    ensures P.Run(p, a + b, lim).next == P.Run(P.Run(p, a, lim).next, b, lim).next
  {
    hide P.Run;
    P.RunAppend(p, a, b, lim);
  }

  /** At the start of a header line the checkpoint is the end of what is held. */
  lemma CheckpointAt(s: B.Machine, h: P.Head, cfg: B.Config)
    requires B.Ready(s, cfg) && s.phase != B.Error && B.Meaning(s) == P.InHeaderName(h, "") && s.held != ""
    ensures s.phase == B.ParseHeaderName && s.checkpoint == |s.held|
  {
  }

  /** Behind the header section, the checkpoint is its end. */
  lemma AtBlankLine(m: Message, lines: seq<Line>, cfg: B.Config) returns (h: P.Head)
    requires ChunkedHead(m, lines, cfg.limits) && |HeadText(m, lines)| + 6 <= cfg.capacity
    ensures B.Ready(B.INITIAL, cfg) && h.headers == m.headers && h.bytes + 1 <= cfg.limits.headerBytes
    ensures var text := HeadText(m, lines);
            var s := B.Run(B.INITIAL, text, cfg).next;
            && B.Ready(s, cfg) && s.phase == B.ParseHeaderName && s.held == text && s.checkpoint == |text| > 2
            && B.Meaning(s) == P.InHeaderName(h, "")
            && P.Run(P.START, text, cfg.limits) == P.Silent(P.InHeaderName(h, ""))
  {
    assert 2 < |RequestLine(m)|;
    hide P.Run, B.Run, RequestLine, LinesText, B.Sound, B.Meaning, B.Ready, ListsChunked, GoodLines, CleanUri, Gives;
    var text := HeadText(m, lines);
    h := HeadAt(m, lines);
    B.InitialReady(cfg);
    ReadHead(m, lines, cfg.limits);
    StoredExactly(lines, m.headers);
    FollowsUntilFull(B.INITIAL, text, P.InHeaderName(h, ""), cfg);
    assert B.INITIAL.held + text == text;
    CheckpointAt(B.Run(B.INITIAL, text, cfg).next, h, cfg);
  }

  /** Behind the first chunk, the buffer is empty and the checkpoint as it was. */
  lemma BehindChunk(text: string, s: B.Machine, h: P.Head, cfg: B.Config)
    requires B.Ready(B.INITIAL, cfg) && s == B.Run(B.INITIAL, text, cfg).next && |text| + 6 <= cfg.capacity
    requires B.Ready(s, cfg) && s.phase == B.ParseHeaderName && s.held == text && s.checkpoint == |text|
    requires B.Meaning(s) == P.InHeaderName(h, "")
    requires P.Run(P.START, text, cfg.limits) == P.Silent(P.InHeaderName(h, ""))
    requires ListsChunked(h.headers) && h.bytes + 1 <= cfg.limits.headerBytes
    requires 1 <= cfg.limits.bodyMemory <= cfg.limits.bodySize
    ensures var first := OneChunk(text);
            var u := B.Run(B.INITIAL, first, cfg).next;
            var e := P.InChunkEnd(P.Head(h.version, h.verb, h.uri, map[], h.bytes + 2), "");
            && B.Ready(u, cfg) && u.phase == B.ParseChunkSkipLine && u.held == "" && u.checkpoint == |text|
            && B.Meaning(u) == e && P.Run(P.START, first, cfg.limits).next == e
  {
    hide P.Run, B.Run, ListsChunked, B.Sound, B.Meaning, B.Byte, B.Ready;
    var size, h2 := CRLF + "1" + CRLF, h.(bytes := h.bytes + 2);
    SizeRead(h, cfg.limits);
    assert |size| == 5 && ':' !in size;
    hide CRLF;
    FollowsWithCheckpoint(s, size, P.InChunk(h2, 1, ""), cfg);
    BoundedThen(B.INITIAL, text, size, cfg);
    StreamThen(P.START, text, size, cfg.limits);
    ChunkLeaves(B.Run(s, size, cfg).next, h2, cfg);
    BoundedThen(B.INITIAL, text + size, "x", cfg);
    StreamThen(P.START, text + size, "x", cfg.limits);
    DataText(h2, 1, "", "x", cfg.limits);
  }

  lemma StaleFrom(first: string, s: B.Machine, h: P.Head, cfg: B.Config)
    requires 6 <= cfg.capacity && B.Ready(B.INITIAL, cfg) && s == B.Run(B.INITIAL, first, cfg).next
    requires B.Ready(s, cfg) && s.phase == B.ParseChunkSkipLine && s.held == "" && 2 < s.checkpoint <= cfg.capacity
    requires B.Meaning(s) == P.InChunkEnd(h, "") && P.Run(P.START, first, cfg.limits).next == P.InChunkEnd(h, "")
    ensures var stream := first + ((CRLF + LongSize(cfg.capacity - 3)) + "0");
            && B.Run(B.INITIAL, stream, cfg).next.phase == B.ParseChunkSize
            && B.Meaning(B.Run(B.INITIAL, stream, cfg).next) != P.Run(P.START, stream, cfg.limits).next
  {
    hide P.Run, B.Run, B.Sound, B.Byte, B.Full, B.Meaning, B.Ready;
    var n := cfg.capacity - 3;
    var line := CRLF + LongSize(n);
    LongSizeRead(h, n, cfg.limits);
    LongSizeRead(h, n + 1, cfg.limits);
    assert line + "0" == CRLF + LongSize(n + 1) && |line| == cfg.capacity - 1;
    hide LongSize;
    FollowsWithCheckpoint(s, line, P.InChunkSize(h, LongSize(n)), cfg);
    LastDigit(B.Run(s, line, cfg).next, h, n, cfg);
    BoundedThen(s, line, "0", cfg);
    BoundedThen(B.INITIAL, first, line + "0", cfg);
    StreamThen(P.START, first, line + "0", cfg.limits);
  }

  /** A stale checkpoint damages the size line of a second chunk, whichever length the compaction
      moves: the checkpoint of the last header line still stands when the line fills the buffer, and
      the first digits are dropped. */
  lemma StaleCheckpointDamages(m: Message, lines: seq<Line>, cfg: B.Config)
    requires ChunkedHead(m, lines, cfg.limits) && |HeadText(m, lines)| + 6 <= cfg.capacity
    ensures var stream := OneChunk(HeadText(m, lines)) + (CRLF + LongSize(cfg.capacity - 3) + "0");
            && B.Ready(B.INITIAL, cfg)
            && B.Run(B.INITIAL, stream, cfg).next.phase == B.ParseChunkSize
            && B.Meaning(B.Run(B.INITIAL, stream, cfg).next) != P.Run(P.START, stream, cfg.limits).next
  {
    hide P.Run, B.Run, B.Sound, B.Meaning, B.Ready, HeadText, OneChunk, LongSize, ListsChunked, GoodHead;
    var text := HeadText(m, lines);
    var h := AtBlankLine(m, lines, cfg);
    BehindChunk(text, B.Run(B.INITIAL, text, cfg).next, h, cfg);
    var first := OneChunk(text);
    StaleFrom(first, B.Run(B.INITIAL, first, cfg).next, P.Head(h.version, h.verb, h.uri, map[], h.bytes + 2), cfg);
  }
}
