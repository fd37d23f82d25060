/** When the bounded buffer does not show: what compaction, spilling and stale checkpoints do to
    the text being read. */
module Transparency {
  import opened Text
  import opened Http
  import P = StreamParser
  import opened BoundedParser

  /** The held bytes from which on the machine still needs them. */
  function Needed(m: Machine): nat {
    if m.phase == ParseHeaderValue then m.nameStart else m.start
  }

  /** The held bytes up to which it does: all of them, unless the token is empty. */
  function LiveEnd(m: Machine): nat
    requires Ordered(m)
  {
    if m.Token() != "" then |m.held| else if m.phase == ParseHeaderValue then m.nameEnd else 0
  }

  /** When the full-buffer step loses what is being read. Body bytes never are. A line is if there is
      no checkpoint, or if some of it is live and stands before the checkpoint, or, as the source is
      written, behind the bytes that are moved. */
  predicate Loses(m: Machine, how: Compaction)
    requires Ordered(m)
  {
    && m.phase != ParseBody && m.phase != ParseChunk
    && (m.checkpoint <= 0
        || (LiveEnd(m) > 0 && (m.checkpoint > Needed(m) || (how == AsWritten && 2 * m.checkpoint < LiveEnd(m)))))
  }

  /** Of the bytes that are in the buffer, moving `checkpoint` of them, as the source does, moves the
      unfinished line exactly when the line is no longer than what stands before it; otherwise some
      buffer contents are damaged. */
  lemma CompactionExactness(capacity: nat, checkpoint: nat, how: Compaction)
    requires 0 < checkpoint <= capacity
    ensures (forall held: string | |held| == capacity :: Moved(held, checkpoint, how) == held[checkpoint..])
            <==> how == WholeLine || 2 * checkpoint >= capacity
  {
    if how == WholeLine || 2 * checkpoint >= capacity {
      forall held: string | |held| == capacity
        ensures Moved(held, checkpoint, how) == held[checkpoint..]
      {
        MovedWhole(held, checkpoint, how);
      }
    } else {
      var held := seq(capacity, k => if k < 2 * checkpoint then 'a' else 'b');
      assert |held| == capacity;
      assert Moved(held, checkpoint, how)[checkpoint] == held[checkpoint];
      assert held[checkpoint..][checkpoint] == held[2 * checkpoint];
    }
  }

  /** `memmove` by `n` bytes stays in the block and brings the unfinished line to its front. */
  predicate BringsLine(block: string, checkpoint: nat, n: nat)
    requires checkpoint <= |block|
  {
    match Memmove(block, checkpoint, n)
    case Some(moved) => moved[..|block| - checkpoint] == block[checkpoint..]
    case None => false
  }

  /** The length as written keeps the copy inside the block exactly when the checkpoint is at most
      half of it. So the copy is inside the block and right, for all contents, at one checkpoint
      only: the middle. */
  lemma CompactionInBlock(capacity: nat, checkpoint: nat)
    requires 0 < checkpoint <= capacity
    ensures forall block: string | |block| == capacity ::
              Memmove(block, checkpoint, checkpoint).Some? <==> 2 * checkpoint <= capacity
    ensures (forall block: string | |block| == capacity :: BringsLine(block, checkpoint, checkpoint))
            <==> 2 * checkpoint == capacity
  {
    if 2 * checkpoint == capacity {
      forall block: string | |block| == capacity
        ensures BringsLine(block, checkpoint, checkpoint)
      {
        assert Memmove(block, checkpoint, checkpoint).value[..checkpoint] == block[checkpoint..];
      }
    } else {
      var block := seq(capacity, k => if k < 2 * checkpoint then 'a' else 'b');
      assert |block| == capacity;
      if 2 * checkpoint < capacity {
        assert Memmove(block, checkpoint, checkpoint).value[..capacity - checkpoint][checkpoint] == 'a';
        assert block[checkpoint..][checkpoint] == 'b';
      }
      assert !BringsLine(block, checkpoint, checkpoint);
    }
  }

  /** The length of the line is always inside the block and right. */
  lemma RepairInBlock(block: string, checkpoint: nat)
    requires checkpoint <= |block|
    ensures BringsLine(block, checkpoint, |block| - checkpoint)
  {
  }

  /** A shift stays in the block exactly when it is not made or the buffer is not full; then it
      brings what follows to the front. */
  lemma ShiftInBlock(block: string, pos: nat, bufferLen: nat)
    requires pos < bufferLen <= |block|
    ensures pos == bufferLen - 1 || Memmove(block, pos + 1, bufferLen - pos).Some?
            <==> pos == bufferLen - 1 || bufferLen < |block|
    ensures bufferLen < |block| ==>
              Memmove(block, pos + 1, bufferLen - pos).value[..bufferLen - pos - 1] == block[pos + 1..bufferLen]
  {
  }

  lemma MovedWhole(held: string, checkpoint: nat, how: Compaction)
    requires checkpoint <= |held| && (how == WholeLine || 2 * checkpoint >= |held|)
    ensures Moved(held, checkpoint, how) == held[checkpoint..]
  {
  }

  /** The full-buffer step keeps what is being read. */
  ghost predicate KeepsMeaning(m: Machine, cfg: Config)
    requires Sound(m, cfg) && IsFull(m, cfg)
  {
    FullReady(m, cfg);
    Meaning(Full(m, cfg.compaction)) == Meaning(m)
  }

  /** Unless it loses what is being read, the full-buffer step frees room and changes nothing of it, and
      the bytes held are still the last bytes received. */
  lemma FullKeepsMeaning(m: Machine, cfg: Config)
    requires Sound(m, cfg) && IsFull(m, cfg) && !Loses(m, cfg.compaction)
    ensures KeepsMeaning(m, cfg)
  {
    FullReady(m, cfg);
    if m.phase == ParseBody || m.phase == ParseChunk {
      assert m.body + m.Token() + "" == m.body + m.Token();
    } else {
      MoveKeepsMeaning(m, cfg);
    }
  }

  predicate IsSuffix(a: string, b: string) {
    |a| <= |b| && b[|b| - |a|..] == a
  }

  /** The bytes that are needed are moved, if none is behind the bytes that the copy takes. */
  lemma MovedPart(held: string, cp: nat, from: nat, to: nat, how: Compaction)
    requires cp <= from <= to <= |held| && (how == WholeLine || to <= 2 * cp)
    ensures Moved(held, cp, how)[from - cp..to - cp] == held[from..to]
  {
    hide Moved;
    forall k | from - cp <= k < to - cp
      ensures Moved(held, cp, how)[k] == held[cp + k]
    {
      MovedAt(held, cp, k, how);
    }
  }

  /** The same for all that stands behind a position, if anything does. */
  lemma MovedRest(held: string, cp: nat, from: nat, how: Compaction)
    requires cp <= from <= |held| && (from == |held| || how == WholeLine || |held| <= 2 * cp)
    ensures Moved(held, cp, how)[from - cp..] == held[from..]
  {
    var moved := Moved(held, cp, how);
    if from < |held| {
      MovedPart(held, cp, from, |held|, how);
    }
    hide Moved;
    assert moved[from - cp..] == moved[from - cp..|held| - cp] && held[from..] == held[from..|held|];
  }

  lemma MoveKeepsMeaning(m: Machine, cfg: Config)
    requires Sound(m, cfg) && IsFull(m, cfg) && !Loses(m, cfg.compaction)
    requires m.phase != ParseBody && m.phase != ParseChunk
    ensures Ordered(Full(m, cfg.compaction)) && Meaning(Full(m, cfg.compaction)) == Meaning(m)
  {
    hide Moved, BodyAccount;
    assert m.Token() == "" <==> m.start == |m.held|;
    MovedRest(m.held, m.checkpoint, m.start, cfg.compaction);
    if m.phase == ParseHeaderValue {
      MovedPart(m.held, m.checkpoint, m.nameStart, m.nameEnd, cfg.compaction);
    }
  }

  /** Contents of the buffer that differ in the last live byte from all the others. */
  function Marked(m: Machine): (held: string)
    requires Ordered(m) && LiveEnd(m) > 0
    ensures |held| == |m.held|
  {
    seq(|m.held|, k => if k == LiveEnd(m) - 1 then 'a' else 'b')
  }

  lemma MarkedSound(m: Machine, cfg: Config)
    requires Sound(m, cfg) && IsFull(m, cfg) && LiveEnd(m) > 0
    ensures var n := m.(held := Marked(m));
            && Sound(n, cfg) && IsFull(n, cfg) && Needed(n) == Needed(m) && LiveEnd(n) == LiveEnd(m)
            && (n.Token() == "" <==> m.Token() == "")
  {
    hide Marked;
  }

  /** Stale: the token gets shorter. */
  lemma StaleLoses(n: Machine, cfg: Config)
    requires Sound(n, cfg) && IsFull(n, cfg) && n.phase != ParseBody && n.phase != ParseChunk
    requires n.checkpoint > Needed(n) && n.checkpoint > 0 && LiveEnd(n) > 0
    ensures !KeepsMeaning(n, cfg)
  {
    hide Moved;
    FullReady(n, cfg);
    assert |Full(n, cfg.compaction).Token()| < |n.Token()|;
  }

  /** Too short a copy: the last live byte is not moved. */
  lemma ShortCopyLoses(n: Machine, m: Machine, cfg: Config)
    requires Sound(m, cfg) && IsFull(m, cfg) && LiveEnd(m) > 0 && n == m.(held := Marked(m))
    requires Sound(n, cfg) && IsFull(n, cfg) && n.phase != ParseBody && n.phase != ParseChunk
    requires 0 < n.checkpoint <= Needed(n) && cfg.compaction == AsWritten && 2 * n.checkpoint < LiveEnd(n)
    requires Needed(n) == Needed(m) && LiveEnd(n) == LiveEnd(m)
    ensures !KeepsMeaning(n, cfg)
  {
    var cp, last := n.checkpoint, LiveEnd(n) - 1;
    assert n.held[last] == 'a' && n.held[last - cp] == 'b';
    hide Marked;
    MovedAt(n.held, cp, last - cp, AsWritten);
    assert Full(n, AsWritten).held[last - cp] == 'b';
    hide Moved;
    FullReady(n, cfg);
    LastLiveByte(n, Full(n, AsWritten), cp);
  }

  /** What is being read is the same only if its last byte is. */
  lemma LastLiveByte(n: Machine, f: Machine, cp: nat)
    requires Ordered(n) && Ordered(f) && 0 < cp <= Needed(n) && cp < LiveEnd(n) <= |n.held|
    requires n.phase == f.phase && |f.held| == |n.held| - cp && f.start == n.start - cp
    requires n.phase == ParseHeaderValue ==>
               n.nameStart < n.nameEnd <= n.start && f.nameStart == n.nameStart - cp && f.nameEnd == n.nameEnd - cp
    requires f.held[LiveEnd(n) - 1 - cp] != n.held[LiveEnd(n) - 1]
    requires n.phase in {ParseHeaderName, ParseHeaderValue, ParseChunkSize, ParseChunkSkipLine,
                         ParseEndOfChunkedRequest}
    ensures Meaning(f) != Meaning(n)
  {
    if n.Token() != "" {
      assert n.Token()[|n.Token()| - 1] != f.Token()[|n.Token()| - 1];
    } else {
      assert n.Name()[|n.Name()| - 1] != f.Name()[|n.Name()| - 1];
    }
  }

  /** If it loses what is being read, that shows on some contents of the buffer. */
  lemma LossOnContents(m: Machine, cfg: Config)
    requires Sound(m, cfg) && IsFull(m, cfg) && Loses(m, cfg.compaction) && m.checkpoint > 0
    ensures LiveEnd(m) > 0
    ensures var n := m.(held := Marked(m));
            Sound(n, cfg) && IsFull(n, cfg) && !KeepsMeaning(n, cfg)
  {
    assert Ordered(m) && LiveEnd(m) > 0;
    hide Marked, KeepsMeaning, Sound;
    MarkedSound(m, cfg);
    var n := m.(held := Marked(m));
    if n.checkpoint > Needed(n) {
      StaleLoses(n, cfg);
    } else {
      ShortCopyLoses(n, m, cfg);
    }
  }

  /** The full-buffer step, exactly: for a machine in any phase, with its positions as they are, it keeps
      what is being read for all contents of the buffer if and only if it does not lose it. */
  lemma FullExactness(m: Machine, cfg: Config)
    requires Sound(m, cfg) && IsFull(m, cfg)
    ensures (forall held: string :: |held| == |m.held| ==>
               Sound(m.(held := held), cfg) && IsFull(m.(held := held), cfg) && KeepsMeaning(m.(held := held), cfg))
            <==> !Loses(m, cfg.compaction)
  {
    assert Ordered(m);
    hide Sound, Full, Meaning, Loses, KeepsMeaning;
    if Loses(m, cfg.compaction) {
      if m.checkpoint > 0 {
        LossOnContents(m, cfg);
      } else {
        assert m.(held := m.held) == m;
        LossWithoutCheckpoint(m, cfg);
      }
    } else {
      forall held: string | |held| == |m.held|
        ensures Sound(m.(held := held), cfg) && IsFull(m.(held := held), cfg) && KeepsMeaning(m.(held := held), cfg)
      {
        PositionsDecide(m, held, cfg);
        FullKeepsMeaning(m.(held := held), cfg);
      }
    }
  }

  lemma LossWithoutCheckpoint(m: Machine, cfg: Config)
    requires Sound(m, cfg) && IsFull(m, cfg) && Loses(m, cfg.compaction) && m.checkpoint <= 0
    ensures !KeepsMeaning(m, cfg)
  {
  }

  /** Only the positions count. */
  lemma PositionsDecide(m: Machine, held: string, cfg: Config)
    requires Sound(m, cfg) && IsFull(m, cfg) && |held| == |m.held|
    ensures var n := m.(held := held);
            Sound(n, cfg) && IsFull(n, cfg) && (Loses(n, cfg.compaction) <==> Loses(m, cfg.compaction))
  {
  }

  /** A size line behind a chunk starts at position 2, and the checkpoint of the header section still
      stands. If such a line fills the buffer, then some of it is always lost; so it is read as it was
      sent exactly as long as it does not fill the buffer. */
  lemma SizeLineSurvives(m: Machine, cfg: Config)
    requires Sound(m, cfg) && m.phase == ParseChunkSize && m.start == 2 < m.checkpoint && m.Token() != ""
    ensures var s := Settle(m, cfg);
            s.phase == ParseChunkSize && (Meaning(s) == Meaning(m) <==> |m.held| < cfg.capacity)
  {
    hide Moved;
    if IsFull(m, cfg) {
      assert |Full(m, cfg.compaction).Token()| < |m.Token()|;
    }
  }

  /** The checkpoint is not stale and all that stands behind it is moved. */
  predicate KeepsUp(m: Machine, how: Compaction) {
    m.phase == ParseBody || m.phase == ParseChunk ||
    (0 < m.checkpoint <= Needed(m) && (how == WholeLine || 2 * m.checkpoint >= |m.held|))
  }

  /** Then nothing is lost, and the bytes held are still the last bytes received. */
  lemma KeepsUpKeepsAll(m: Machine, cfg: Config)
    requires Sound(m, cfg) && IsFull(m, cfg) && KeepsUp(m, cfg.compaction)
    ensures !Loses(m, cfg.compaction) && IsSuffix(Full(m, cfg.compaction).held, m.held)
  {
    if m.phase != ParseBody && m.phase != ParseChunk {
      MovedWhole(m.held, m.checkpoint, cfg.compaction);
    }
  }

  // ------------------------------------------------- a condition on what is being received

  /** How long a line may be: as long as the buffer if the compaction moves all of it, half as
      long as the source is written. */
  function Span(cfg: Config): int {
    if cfg.compaction == WholeLine then cfg.capacity - 1 else cfg.capacity / 2
  }

  /** A chunk took the headers with it, and left the buffer empty. */
  predicate BehindChunk(head: P.Head) {
    head.headers == map[]
  }

  /** The line being read fits. Body and chunk bytes always do: they are spilled. */
  ghost predicate Fits(p: P.Parser, cfg: Config) {
    match p
    case InMethod(text) => |text| < cfg.capacity
    case InStatus(count, _) => count < cfg.capacity
    case InReason(count) => count < cfg.capacity
    case InUri(_, count, _) => count < cfg.capacity
    case InVersion(_, _, count, _) => count < cfg.capacity
    case InHeaderName(_, text) => |text| <= Span(cfg)
    case InHeaderValue(_, indent, name, text) => indent + |name| + 1 + |text| <= Span(cfg)
    case InChunkSize(head, text) =>
      if BehindChunk(head) then |text| + 4 < cfg.capacity else |text| + 4 <= Span(cfg)
    case _ => true
  }

  ghost predicate AllFit(p: P.Parser, input: string, cfg: Config)
    decreases |input|
  {
    Fits(p, cfg) && (input != "" ==> AllFit(P.Consume(p, input[0], cfg.limits).next, input[1..], cfg))
  }

  /** Where the positions of the chunk phases stand to a checkpoint that may be stale. */
  ghost predicate Snug(m: Machine, cfg: Config) {
    match m.phase
    case ParseChunkSize =>
      m.start == 2 || (m.headers != map[] && m.checkpoint > 0 && m.start == m.checkpoint + 2)
    case ParseChunk => 4 < cfg.capacity
    case ParseChunkSkipLine => 4 < cfg.capacity && m.headers == map[]
    case ParseEndOfChunkedRequest =>
      m.start + 1 < cfg.capacity || (0 < m.checkpoint <= m.start && m.start + 1 <= m.checkpoint + Span(cfg))
    case _ => true
  }

  lemma HeaderNameSnug(m: Machine, c: char, cfg: Config)
    requires Ready(m, cfg) && m.phase == ParseHeaderName
    ensures Snug(Byte(m, c, cfg.limits).next, cfg)
  {
    ChunkedHasHeaders(m.headers);
    hide TrimLeft, P.IsChunked, P.ParseNumber;
  }

  lemma ChunkedHasHeaders(headers: Headers)
    ensures P.IsChunked(headers) ==> headers != map[]
  {
  }

  lemma ChunkSizeSnug(m: Machine, c: char, cfg: Config)
    requires Ready(m, cfg) && m.phase == ParseChunkSize && Snug(m, cfg) && Fits(Meaning(m), cfg)
    ensures Snug(Byte(m, c, cfg.limits).next, cfg)
  {
    hide FromChars;
  }

  lemma ChunkSnug(m: Machine, c: char, cfg: Config)
    requires Ready(m, cfg) && m.phase in {ParseChunk, ParseChunkSkipLine, ParseEndOfChunkedRequest} && Snug(m, cfg)
    ensures Snug(Byte(m, c, cfg.limits).next, cfg)
  {
  }

  lemma OtherSnug(m: Machine, c: char, cfg: Config)
    requires Ready(m, cfg)
    requires m.phase !in {ParseHeaderName, ParseChunkSize, ParseChunk, ParseChunkSkipLine, ParseEndOfChunkedRequest}
    ensures Snug(Byte(m, c, cfg.limits).next, cfg)
  {
    hide TrimLeft, ParseMethod, Sound;
  }

  lemma ByteSnug(m: Machine, c: char, cfg: Config)
    requires Ready(m, cfg) && Snug(m, cfg) && Fits(Meaning(m), cfg)
    ensures Snug(Byte(m, c, cfg.limits).next, cfg)
  {
    hide Byte, Sound, Snug;
    match m.phase {
      case ParseHeaderName => HeaderNameSnug(m, c, cfg);
      case ParseChunkSize => ChunkSizeSnug(m, c, cfg);
      case ParseChunk => ChunkSnug(m, c, cfg);
      case ParseChunkSkipLine => ChunkSnug(m, c, cfg);
      case ParseEndOfChunkedRequest => ChunkSnug(m, c, cfg);
      case _ => OtherSnug(m, c, cfg);
    }
  }

  lemma HalfSpan(cfg: Config, checkpoint: int)
    requires cfg.capacity - checkpoint <= Span(cfg)
    ensures cfg.compaction == WholeLine || 2 * checkpoint >= cfg.capacity
    ensures 0 < cfg.capacity ==> Span(cfg) < cfg.capacity
  {
  }

  lemma HeaderKeepsUp(m: Machine, cfg: Config)
    requires Sound(m, cfg) && IsFull(m, cfg) && Fits(Meaning(m), cfg)
    requires m.phase == ParseHeaderName || m.phase == ParseHeaderValue
    ensures KeepsUp(m, cfg.compaction)
  {
    hide Span;
    HalfSpan(cfg, LineStart(m));
  }

  lemma ChunkKeepsUp(m: Machine, cfg: Config)
    requires Sound(m, cfg) && IsFull(m, cfg) && Snug(m, cfg) && Fits(Meaning(m), cfg)
    requires m.phase in {ParseChunkSize, ParseChunkSkipLine, ParseEndOfChunkedRequest}
    ensures KeepsUp(m, cfg.compaction)
  {
    hide Span;
    HalfSpan(cfg, cfg.capacity - Span(cfg));
    if 0 < m.checkpoint && cfg.capacity - m.checkpoint <= Span(cfg) {
      HalfSpan(cfg, m.checkpoint);
    }
  }

  lemma FitsKeepsUp(m: Machine, cfg: Config)
    requires Sound(m, cfg) && IsFull(m, cfg) && Snug(m, cfg) && Fits(Meaning(m), cfg)
    ensures KeepsUp(m, cfg.compaction)
  {
    if m.phase == ParseHeaderName || m.phase == ParseHeaderValue {
      HeaderKeepsUp(m, cfg);
    } else if m.phase in {ParseChunkSize, ParseChunkSkipLine, ParseEndOfChunkedRequest} {
      ChunkKeepsUp(m, cfg);
    }
  }

  lemma FullSnug(m: Machine, cfg: Config)
    requires Sound(m, cfg) && IsFull(m, cfg) && Snug(m, cfg) && KeepsUp(m, cfg.compaction)
    requires Fits(Meaning(m), cfg)
    ensures Snug(Full(m, cfg.compaction), cfg)
  {
    assert 0 < cfg.capacity && Span(cfg) < cfg.capacity;
    hide Moved, Meaning, Fits, Span, Sound;
    if m.phase == ParseChunkSize {
      ChunkSizeFull(m, cfg);
    }
  }

  lemma ChunkSizeFull(m: Machine, cfg: Config)
    requires Sound(m, cfg) && IsFull(m, cfg) && Snug(m, cfg) && Fits(Meaning(m), cfg)
    requires m.phase == ParseChunkSize
    ensures m.checkpoint > 0 && m.start == m.checkpoint + 2 && m.headers != map[]
  {
  }

  lemma CheckpointInBounds(m: Machine, cfg: Config)
    requires Sound(m, cfg) && IsFull(m, cfg)
    ensures m.checkpoint <= |m.held|
  {
  }

  /** One byte of a stream whose lines fit. */
  lemma NextFollows(m: Machine, c: char, cfg: Config)
    requires Ready(m, cfg) && Snug(m, cfg) && Fits(Meaning(m), cfg)
    requires Fits(P.Consume(Meaning(m), c, cfg.limits).next, cfg)
    ensures var o := Next(m, c, cfg);
            && P.Step(Meaning(o.next), o.messages) == P.Consume(Meaning(m), c, cfg.limits)
            && Snug(o.next, cfg)
            && (o.next.phase == Error || IsSuffix(o.next.held, m.held + [c]))
  {
    hide P.Consume, Sound, Meaning, Full, Byte, Snug, Fits, IsSuffix, KeepsUp;
    ByteFollows(m, c, cfg);
    ByteSnug(m, c, cfg);
    ByteHolds(m, c, cfg);
    EmptySuffix(m.held + [c]);
    var o := Byte(m, c, cfg.limits);
    if IsFull(o.next, cfg) {
      CheckpointInBounds(o.next, cfg);
      FitsKeepsUp(o.next, cfg);
      FullSnug(o.next, cfg);
      KeepsUpKeepsAll(o.next, cfg);
      FullKeepsMeaning(o.next, cfg);
      SuffixTransitive(Full(o.next, cfg.compaction).held, o.next.held, m.held + [c]);
    }
  }

  lemma EmptySuffix(b: string)
    ensures IsSuffix("", b) && IsSuffix(b, b)
  {
  }

  lemma SuffixTransitive(a: string, b: string, c: string)
    requires IsSuffix(a, b) && IsSuffix(b, c)
    ensures IsSuffix(a, c)
  {
  }

  /** One byte keeps all held bytes and itself, or completes a message and keeps none. */
  lemma ByteHolds(m: Machine, c: char, cfg: Config)
    requires Ready(m, cfg)
    ensures var next := Byte(m, c, cfg.limits).next;
            next.phase == Error || next.held == m.held + [c] || next.held == ""
  {
    hide TrimLeft, P.IsChunked, P.ParseNumber, FromChars, ParseMethod, Sound;
  }

  /** Bounded-buffer transparency: on a stream whose lines fit, spilling and compaction never
      show. The messages, their grouping and the first error are those of the unlimited parser,
      and what is held is always the end of what was received. */
  lemma {:induction false} BoundedIsTransparent(m: Machine, input: string, cfg: Config)
    requires Ready(m, cfg) && Snug(m, cfg) && AllFit(Meaning(m), input, cfg)
    ensures var r := Run(m, input, cfg);
            && P.Step(Meaning(r.next), r.messages) == P.Run(Meaning(m), input, cfg.limits)
            && Snug(r.next, cfg)
            && (r.next.phase == Error || IsSuffix(r.next.held, m.held + input))
    decreases |input|
  {
    hide P.Consume, Next, Ready, Meaning, Snug, Fits, IsSuffix;
    if input == "" {
      assert m.held + input == m.held;
      EmptySuffix(m.held);
    } else {
      var first := Next(m, input[0], cfg);
      NextFollows(m, input[0], cfg);
      BoundedIsTransparent(first.next, input[1..], cfg);
      if first.next.phase == Error {
        ErrorStays(first.next, input[1..], cfg);
      } else if Run(m, input, cfg).next.phase != Error {
        SuffixStep(m.held, input, first.next.held, Run(m, input, cfg).next.held);
      }
    }
  }

  lemma SuffixStep(held: string, input: string, middle: string, end: string)
    requires input != "" && IsSuffix(middle, held + [input[0]]) && IsSuffix(end, middle + input[1..])
    ensures IsSuffix(end, held + input)
  {
    assert (held + [input[0]]) + input[1..] == held + input;
    SuffixExtends(middle, held + [input[0]], input[1..]);
    SuffixTransitive(end, middle + input[1..], held + input);
  }

  lemma SuffixExtends(a: string, b: string, more: string)
    requires IsSuffix(a, b)
    ensures IsSuffix(a + more, b + more)
  {
  }

  // -------------------------------------------------- runs on which nothing is lost

  /** No full-buffer step of the run loses what is being read. */
  ghost predicate NeverLoses(m: Machine, input: string, cfg: Config)
    requires Ready(m, cfg)
    decreases |input|
  {
    input != "" ==>
      var o := Next(m, input[0], cfg).next;
      !LosesAt(m, input[0], cfg) && NeverLoses(o, input[1..], cfg)
  }

  ghost predicate LosesAt(m: Machine, c: char, cfg: Config)
    requires Ready(m, cfg)
  {
    ByteOrdered(m, c, cfg);
    var o := Byte(m, c, cfg.limits).next;
    IsFull(o, cfg) && Loses(o, cfg.compaction)
  }

  lemma NextKeepsMeaning(m: Machine, c: char, cfg: Config)
    requires Ready(m, cfg) && !LosesAt(m, c, cfg)
    ensures var o := Next(m, c, cfg);
            P.Step(Meaning(o.next), o.messages) == P.Consume(Meaning(m), c, cfg.limits)
  {
    hide Byte, P.Consume, Sound, Meaning, Full, Loses;
    ByteFollows(m, c, cfg);
    var o := Byte(m, c, cfg.limits);
    if IsFull(o.next, cfg) {
      FullKeepsMeaning(o.next, cfg);
    }
  }

  /** Whatever is sent: as long as no full-buffer step loses anything, the buffer does not show. */
  lemma {:induction false} TransparentUnlessLost(m: Machine, input: string, cfg: Config)
    requires Ready(m, cfg) && NeverLoses(m, input, cfg)
    ensures var r := Run(m, input, cfg);
            P.Step(Meaning(r.next), r.messages) == P.Run(Meaning(m), input, cfg.limits)
    decreases |input|
  {
    hide P.Consume, Next, Ready, Meaning, LosesAt;
    if input != "" {
      NextKeepsMeaning(m, input[0], cfg);
      TransparentUnlessLost(Next(m, input[0], cfg).next, input[1..], cfg);
    }
  }

  // ------------------------------------------------------- whether lines fit or not

  /** On the positions of a header line the clamps at zero never act: moving back is subtraction. */
  lemma ClampsAreExact(m: Machine, cfg: Config)
    requires Sound(m, cfg) && IsFull(m, cfg) && m.checkpoint > 0
    requires m.phase == ParseHeaderName || m.phase == ParseHeaderValue
    ensures var f := Full(m, cfg.compaction);
            && f.start + m.checkpoint == m.start
            && (m.phase == ParseHeaderValue ==>
                  f.nameStart + m.checkpoint == m.nameStart && f.nameEnd + m.checkpoint == m.nameEnd)
  {
    hide Moved;
  }

  lemma FullHolds(m: Machine, cfg: Config)
    requires Sound(m, cfg) && IsFull(m, cfg) && cfg.compaction == WholeLine
    ensures var f := Full(m, cfg.compaction);
            f.phase == Error || IsSuffix(f.held, m.held)
  {
    if m.checkpoint >= 0 && m.phase != ParseBody && m.phase != ParseChunk {
      MovedWhole(m.held, m.checkpoint, WholeLine);
    }
  }

  /** If the compaction moves the whole line, then whatever is sent, the live bytes are the last
      bytes received until there is an error. */
  lemma {:induction false} HeldIsSuffix(m: Machine, input: string, cfg: Config)
    requires Ready(m, cfg) && m.phase != Error && cfg.compaction == WholeLine
    ensures var r := Run(m, input, cfg);
            r.next.phase == Error || IsSuffix(r.next.held, m.held + input)
    decreases |input|
  {
    hide Byte, Full, Sound, IsSuffix;
    if input == "" {
      assert m.held + input == m.held;
      EmptySuffix(m.held);
    } else {
      var first := Next(m, input[0], cfg);
      NextHolds(m, input[0], cfg);
      if first.next.phase == Error {
        ErrorStays(first.next, input[1..], cfg);
      } else {
        HeldIsSuffix(first.next, input[1..], cfg);
        if Run(m, input, cfg).next.phase != Error {
          SuffixStep(m.held, input, first.next.held, Run(m, input, cfg).next.held);
        }
      }
    }
  }

  lemma NextHolds(m: Machine, c: char, cfg: Config)
    requires Ready(m, cfg) && m.phase != Error && cfg.compaction == WholeLine
    ensures var o := Next(m, c, cfg);
            o.next.phase == Error || IsSuffix(o.next.held, m.held + [c])
  {
    hide Byte, Full, IsSuffix, Sound;
    ByteFollows(m, c, cfg);
    ByteHolds(m, c, cfg);
    EmptySuffix(m.held + [c]);
    var o := Byte(m, c, cfg.limits);
    if IsFull(o.next, cfg) {
      CheckpointInBounds(o.next, cfg);
      FullHolds(o.next, cfg);
      if Full(o.next, cfg.compaction).phase != Error {
        SuffixTransitive(Full(o.next, cfg.compaction).held, o.next.held, m.held + [c]);
      }
    }
  }

  // ------------------------------------------------------------- what is spilled

  /** The bytes of the body so far, spilled or held, are fewer than were declared. */
  predicate Owed(m: Machine) {
    m.phase == ParseBody && m.bodyLength > 0 ==> m.count < m.bodyLength
  }

  lemma ByteOwed(m: Machine, c: char, cfg: Config)
    requires Ready(m, cfg) && Owed(m)
    ensures Owed(Byte(m, c, cfg.limits).next)
  {
    hide TrimLeft, P.IsChunked, P.ParseNumber, FromChars, ParseMethod, VersionOf, ToLower;
  }

  /** Whatever is sent, the spilled part of a body or chunk never exceeds its declared length. */
  lemma {:induction false} SpillWithinLength(m: Machine, input: string, cfg: Config)
    requires Ready(m, cfg) && Owed(m)
    ensures var r := Run(m, input, cfg).next;
            && Owed(r)
            && (r.phase == ParseBody && r.bodyLength > 0 ==> |r.body| < r.bodyLength)
            && (r.phase == ParseChunk ==> |r.body| < r.chunkLength <= cfg.limits.bodyMemory)
    decreases |input|
  {
    hide Byte, Full;
    if input != "" {
      ByteFollows(m, input[0], cfg);
      ByteOwed(m, input[0], cfg);
      FullOwed(m, input[0], cfg);
      SpillWithinLength(Next(m, input[0], cfg).next, input[1..], cfg);
    }
  }

  lemma FullOwed(m: Machine, c: char, cfg: Config)
    requires Ready(m, cfg) && Owed(Byte(m, c, cfg.limits).next)
    ensures Owed(Next(m, c, cfg).next)
  {
    hide Byte, Moved;
    ByteFollows(m, c, cfg);
  }

  /** With the limits as the setters keep them, the size error of the chunk state is unreachable. */
  lemma ChunkNeverTooLarge(m: Machine, c: char, cfg: Config)
    requires Ready(m, cfg) && m.phase == ParseChunk && cfg.limits.bodyMemory <= cfg.limits.bodySize
    ensures Byte(m, c, cfg.limits).next.phase != Error
  {
    assert m.count < m.chunkLength;
  }
}
