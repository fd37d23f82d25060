/** A whole connection: bytes arrive in reads of any size that fits, and are fed to the assembler. */
module Connection {
  import opened Http
  import P = StreamParser
  import B = BoundedParser
  import opened Assembler
  import opened ResourceBounds

  /** Copies one read behind what the buffer still holds. */
  method CopyIn(buffer: array<char>, at: nat, read: string)
    requires at + |read| <= buffer.Length
    modifies buffer
    ensures buffer[..at] == old(buffer[..at]) && buffer[at..at + |read|] == read
  {
    forall k | 0 <= k < |read| {
      buffer[at + k] := read[k];
    }
  }

  /** One read and the `feed` that follows it. */
  method ReadAndFeed(assembler: HttpAssembler, id: nat, buffer: array<char>, len: nat, read: string, ghost m: B.Machine)
    returns (left: nat, messages: seq<Message>, error: bool)
    requires assembler.Separate() && assembler.Accounted(id, buffer, m)
    requires B.Ready(m, assembler.ConfigFor(buffer.Length)) && m.phase != B.Error
    requires len == |m.held| && len + |read| <= buffer.Length
    modifies assembler`clientStates, buffer, if id in assembler.clientStates then {assembler.clientStates[id]} else {}
    ensures assembler.Separate() && Kept(assembler, id)
    ensures var r := B.Run(m, read, assembler.ConfigFor(buffer.Length));
            && messages == r.messages
            && (error <==> r.next.phase == B.Error)
            && (error ==> assembler.Accounted(id, buffer, B.INITIAL))
            && (!error ==> assembler.Accounted(id, buffer, r.next) && left == |r.next.held| < buffer.Length)
  {
    hide B.Run, B.Ready;
    assert assembler.Accounted(id, buffer, m) ==> m.held == buffer[..len];
    CopyIn(buffer, len, read);
    left, messages, error := assembler.Feed(id, buffer, len + |read|, buffer.Length, m, len + |read| < buffer.Length);
  }

  /** Other connections keep their states; that of a new one is a new object. */
  twostate predicate Kept(assembler: HttpAssembler, id: nat)
    reads assembler
  {
    && assembler.clientStates.Keys == old(assembler.clientStates.Keys) + {id}
    && (forall j :: j in old(assembler.clientStates) ==> assembler.clientStates[j] == old(assembler.clientStates[j]))
    && (id !in old(assembler.clientStates) ==> fresh(assembler.clientStates[id]))
  }

  /** Fragmentation independence: however the stream of a new connection is cut into reads, the
      messages and the verdict are those of the fold over the whole stream. The choice of each
      read is left open, within the room that every `feed` is proved to leave. With the limits as the
      setters keep them every message is within its bounds. */
  method Receive(assembler: HttpAssembler, id: nat, buffer: array<char>, stream: string)
    returns (messages: seq<Message>, error: bool)
    requires assembler.Separate() && id !in assembler.clientStates && buffer.Length > 0
    modifies assembler`clientStates, buffer
    ensures assembler.Separate()
    ensures forall j :: j in old(assembler.clientStates) ==>
              j in assembler.clientStates && assembler.clientStates[j] == old(assembler.clientStates[j])
    ensures var r := B.Run(B.INITIAL, stream, assembler.ConfigFor(buffer.Length));
            messages == r.messages && (error <==> r.next.phase == B.Error)
    ensures assembler.LimitsConsistent() ==>
              forall k :: 0 <= k < |messages| ==> WithinBounds(messages[k], assembler.GetLimits())
  {
    hide B.Run, B.Ready, WithinBounds;
    ghost var cfg := assembler.ConfigFor(buffer.Length);
    ghost var m := B.INITIAL;
    var len, offset := 0, 0;
    messages, error := [], false;
    ReceivedNothing(stream, cfg);
    while offset < |stream| && !error
      invariant 0 <= offset <= |stream| && len < buffer.Length
      invariant assembler.Separate()
      invariant offset == 0 ==> assembler.clientStates == old(assembler.clientStates)
      invariant offset > 0 ==> Kept(assembler, id)
      invariant Received(stream, offset, cfg, m, messages)
      invariant error <==> m.phase == B.Error
      invariant !error ==> len == |m.held| && assembler.Accounted(id, buffer, m)
      decreases |stream| - offset
    {
      var n: nat :| 0 < n <= buffer.Length - len && n <= |stream| - offset;
      ReceivedMore(stream, offset, n, cfg, m, messages);
      ghost var r := B.Run(m, stream[offset..offset + n], cfg);
      var left, more, failed := ReadAndFeed(assembler, id, buffer, len, stream[offset..offset + n], m);
      messages, error, m, offset := messages + more, failed, r.next, offset + n;
      if !error {
        len := left;
      }
    }
    ReceivedAll(stream, offset, cfg, m, messages);
    if assembler.LimitsConsistent() {
      InitialModest(cfg.limits);
      EveryMessageWithinBounds(B.INITIAL, stream, cfg);
    }
  }

  /** The first `offset` bytes of the stream have been folded into `m` and `messages`. */
  ghost predicate Received(stream: string, offset: nat, cfg: B.Config, m: B.Machine, messages: seq<Message>) {
    offset <= |stream| && cfg.capacity > 0 && B.Ready(B.INITIAL, cfg) && B.Ready(m, cfg) &&
    B.Run(B.INITIAL, stream[..offset], cfg) == P.Step(m, messages)
  }

  lemma ReceivedNothing(stream: string, cfg: B.Config)
    requires cfg.capacity > 0
    ensures Received(stream, 0, cfg, B.INITIAL, [])
  {
  }

  lemma ReceivedMore(stream: string, offset: nat, n: nat, cfg: B.Config, m: B.Machine, messages: seq<Message>)
    requires Received(stream, offset, cfg, m, messages) && offset + n <= |stream|
    ensures var r := B.Run(m, stream[offset..offset + n], cfg);
            Received(stream, offset + n, cfg, r.next, messages + r.messages)
  {
    hide B.Run;
    B.RunAppend(B.INITIAL, stream[..offset], stream[offset..offset + n], cfg);
    assert stream[..offset] + stream[offset..offset + n] == stream[..offset + n];
  }

  lemma ReceivedAll(stream: string, offset: nat, cfg: B.Config, m: B.Machine, messages: seq<Message>)
    requires Received(stream, offset, cfg, m, messages) && (offset == |stream| || m.phase == B.Error)
    ensures B.Run(B.INITIAL, stream, cfg) == P.Step(m, messages)
  {
    hide B.Run, B.Ready;
    if offset < |stream| {
      ReceivedMore(stream, offset, |stream| - offset, cfg, m, messages);
      B.ErrorStays(m, stream[offset..|stream|], cfg);
      assert messages + [] == messages;
    }
    assert stream[..|stream|] == stream;
  }
}
