/** src/networking/Client.h, Client.cpp and the per-client parts of TCPServer.h: reference count,
    flags and the queue of chunks to send. */
module Clients {

  /** What the server's threads read and write of one client. */
  datatype Account = Account(
    refs: int,
    disconnecting: bool,
    sending: bool,
    outbound: seq<string>,
    recvLen: int)

  const NEW_ACCOUNT := Account(0, false, false, [], 0)

  function Concat(chunks: seq<string>): string {
    if chunks == [] then "" else chunks[0] + Concat(chunks[1..])
  }

  lemma {:induction false} ConcatAppend(a: seq<string>, b: seq<string>)
    ensures Concat(a + b) == Concat(a) + Concat(b)
  {
    if a == [] {
      assert a + b == b;
    } else {
      assert (a + b)[1..] == a[1..] + b;
      ConcatAppend(a[1..], b);
    }
  }

  function Pieces(message: string, size: nat): seq<string>
    requires size > 0
  {
    if message == "" then []
    else if |message| <= size then [message]
    else [message[..size]] + Pieces(message[size..], size)
  }

  /** How a message is queued: whole if it fits a buffer, in pieces otherwise. */
  function Chunks(message: string, size: nat): seq<string>
    requires size > 0
  {
    if |message| <= size then [message] else Pieces(message, size)
  }

  /** Chunking loses nothing, queues at least one chunk, and no chunk is over-long. */
  lemma {:induction false} ChunksWhole(message: string, size: nat)
    requires size > 0
    ensures Concat(Chunks(message, size)) == message && Chunks(message, size) != []
    ensures forall k :: 0 <= k < |Chunks(message, size)| ==> |Chunks(message, size)[k]| <= size
  {
    if |message| <= size {
      assert Concat([message]) == message + Concat([message][1..]);
    } else {
      PiecesWhole(message, size);
    }
  }

  lemma {:induction false} PiecesWhole(message: string, size: nat)
    requires size > 0
    ensures Concat(Pieces(message, size)) == message && (message != "" ==> Pieces(message, size) != [])
    ensures forall k :: 0 <= k < |Pieces(message, size)| ==> |Pieces(message, size)[k]| <= size
  {
    if message != "" && |message| <= size {
      assert Concat([message]) == message + Concat([message][1..]);
    } else if message != "" {
      PiecesWhole(message[size..], size);
      var rest := Pieces(message[size..], size);
      assert ([message[..size]] + rest)[1..] == rest;
      assert message == message[..size] + message[size..];
    }
  }

  // ---------------------------------------------------- what the operations do

  /** `postSendEvent`, `ok` being the answer of the operating system. */
  function PostSend(a: Account, data: string, size: nat, ok: bool): Account {
    if |data| > size || !ok then a.(disconnecting := true)
    else a.(sending := true, refs := a.refs + 1)
  }

  predicate SendPosted(data: string, size: nat, ok: bool) {
    |data| <= size && ok
  }

  /** `postReceiveEvent`. */
  function PostReceive(a: Account, ok: bool): Account {
    if ok then a.(refs := a.refs + 1) else a.(disconnecting := true)
  }

  function Borrow(a: Account): Account {
    a.(refs := a.refs + 1)
  }

  function Release(a: Account): Account {
    a.(refs := a.refs - 1)
  }

  function HangUp(a: Account): Account {
    a.(disconnecting := true)
  }

  /** The test that precedes every `terminateClient`. */
  predicate Over(a: Account) {
    a.disconnecting && a.refs == 0
  }

  /** The listener's handling of a completed receive, up to the termination. */
  function ReceiveCompleted(a: Account, bytes: nat): Account {
    var b := Release(a);
    if Over(b) then b else if bytes == 0 then HangUp(b) else b.(recvLen := b.recvLen + bytes)
  }

  /** The received bytes are queued for the client's worker. */
  predicate Queues(a: Account, bytes: nat) {
    !Over(Release(a)) && bytes > 0
  }

  /** The locked part of `send`: the chunks are queued, and the first of the queue is posted
      unless a send is under way. */
  function SendMessage(a: Account, message: string, size: nat, ok: bool): Account
    requires size > 0
  {
    var queued := a.outbound + Chunks(message, size);
    var b := a.(outbound := queued);
    if a.sending || queued == [] then b else PostSend(b, queued[0], size, ok)
  }

  lemma SendKeepsLength(a: Account, message: string, size: nat, ok: bool)
    requires size > 0
    ensures SendMessage(a, message, size, ok).recvLen == a.recvLen
  {
    hide Chunks;
  }

  /** A completed send: its chunk leaves the queue and the next one, if any, is posted. */
  function SendCompleted(a: Account, size: nat, ok: bool): Account
    requires a.outbound != []
  {
    var rest := a.outbound[1..];
    var b := a.(outbound := rest);
    if rest == [] then b.(sending := false) else PostSend(b, rest[0], size, ok)
  }

  /** The listener's handling of a completed send, up to the termination. */
  function SendFinished(a: Account, size: nat, ok: bool): Account
    requires a.outbound != []
  {
    var b := Release(a);
    if Over(b) then b else SendCompleted(b, size, ok)
  }

  /** A worker's handling of one queued client: `feed` left `left` bytes or an error text, and `ok`
      answers the one post that follows. */
  function Assembled(a: Account, error: bool, text: string, left: nat, size: nat, ok: bool): Account
    requires size > 0
  {
    var b := Borrow(a).(recvLen := left);
    if error then Release(HangUp(Release(SendMessage(Borrow(b), text, size, ok))))
    else Release(PostReceive(b, ok))
  }

  class Client {
    const id: nat
    const recvBuffer: array<char>
    var recvLen: int
    var referenceCount: int
    var disconnecting: bool
    var sending: bool
    var outbound: seq<string>

    constructor (id: nat, bufferLen: nat)
      ensures this.id == id && Contents() == NEW_ACCOUNT
      ensures fresh(recvBuffer) && recvBuffer.Length == bufferLen
    {
      this.id := id;
      recvBuffer := new char[bufferLen];
      recvLen, referenceCount := 0, 0;
      disconnecting, sending, outbound := false, false, [];
    }

    ghost function Contents(): Account
      reads this
    {
      Account(referenceCount, disconnecting, sending, outbound, recvLen)
    }

    method IncreaseReferenceCount()
      modifies `referenceCount
      ensures referenceCount == old(referenceCount) + 1
    {
      referenceCount := referenceCount + 1;
    }

    method DecreaseReferenceCount()
      modifies `referenceCount
      ensures referenceCount == old(referenceCount) - 1
    {
      referenceCount := referenceCount - 1;
    }

    method Disconnect()
      modifies `disconnecting
      ensures disconnecting
    {
      disconnecting := true;
    }

    method PostReceiveEvent(ok: bool)
      modifies this
      ensures Contents() == PostReceive(old(Contents()), ok)
    {
      if ok {
        IncreaseReferenceCount();
      } else {
        Disconnect();
      }
    }

    method PostSendEvent(data: string, size: nat, ok: bool)
      modifies this
      ensures Contents() == PostSend(old(Contents()), data, size, ok)
    {
      if |data| > size {
        Disconnect();
      } else if !ok {
        Disconnect();
      } else {
        sending := true;
        IncreaseReferenceCount();
      }
    }

    /** The chunking loop of `send`. */
    method Enqueue(message: string, size: nat)
      requires size > 0
      modifies `outbound
      ensures outbound == old(outbound) + Chunks(message, size)
    {
      if |message| <= size {
        outbound := outbound + [message];
      } else {
        var offset := 0;
        assert message[0..] == message;
        while offset < |message|
          invariant 0 <= offset <= |message|
          invariant outbound + Pieces(message[offset..], size) == old(outbound) + Pieces(message, size)
          decreases |message| - offset
        {
          var chunk := if size < |message| - offset then size else |message| - offset;
          PiecesStep(message, offset, chunk, size);
          ghost var rest := Pieces(message[offset + chunk..], size);
          assert outbound + ([message[offset..offset + chunk]] + rest)
              == (outbound + [message[offset..offset + chunk]]) + rest;
          outbound := outbound + [message[offset..offset + chunk]];
          offset := offset + chunk;
        }
        assert message[|message|..] == "";
      }
    }

    lemma PiecesStep(message: string, offset: nat, chunk: nat, size: nat)
      requires size > 0 && offset < |message|
      requires chunk == if size < |message| - offset then size else |message| - offset
      ensures Pieces(message[offset..], size)
              == [message[offset..offset + chunk]] + Pieces(message[offset + chunk..], size)
    {
      assert message[offset..][..chunk] == message[offset..offset + chunk];
      assert message[offset..][chunk..] == message[offset + chunk..];
      if |message[offset..]| <= size {
        assert message[offset..offset + chunk] == message[offset..] && message[offset + chunk..] == "";
      }
    }

    /** The locked part of `send`, with the reference taken around the post. */
    method SendLocked(message: string, size: nat, ok: bool)
      requires size > 0
      modifies this
      ensures Contents() == SendMessage(old(Contents()), message, size, ok)
    {
      ChunksWhole(message, size);
      Enqueue(message, size);
      if !sending {
        IncreaseReferenceCount();
        PostSendEvent(outbound[0], size, ok);
        DecreaseReferenceCount();
      }
    }

    /** The listener's locked part for a completed send. */
    method SendDone(size: nat, ok: bool)
      requires outbound != []
      modifies this
      ensures Contents() == SendCompleted(old(Contents()), size, ok)
    {
      outbound := outbound[1..];
      if outbound != [] {
        IncreaseReferenceCount();
        PostSendEvent(outbound[0], size, ok);
        DecreaseReferenceCount();
      } else {
        sending := false;
      }
    }
  }
}
