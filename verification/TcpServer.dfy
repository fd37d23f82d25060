/** The operations of src/networking/TCPServer.h on its own objects, each run to its end. What the
    operating system answers to a post is a parameter, as are the bytes it received. */
module Server {
  import opened Http
  import opened Clients
  import opened ClientTables
  import opened Assembler
  import opened ServerState
  import B = BoundedParser
  import IO = Connection

  /** The table once its client `id` has been left with account `a`. */
  function After(t: Table<Client>, id: nat, a: Account): Table<Client> {
    if Over(a) then t.Remove(id) else t
  }

  class TcpServer {
    const table: ClientTable
    const bufferLen: nat
    const assembler: HttpAssembler
    var queues: seq<seq<nat>>
    var requests: seq<Request>

    constructor (workers: nat, bufferLen: nat, assembler: HttpAssembler)
      requires workers > 0 && bufferLen > 0
      ensures Valid() && fresh(table) && table.Contents() == Table([], []) && queues == seq(workers, _ => [])
      ensures requests == []
    {
      this.bufferLen := bufferLen;
      this.assembler := assembler;
      requests := [];
      queues := seq(workers, _ => []);
      table := new ClientTable();
    }

    ghost predicate Valid()
      reads this, table
    {
      table.Valid() && |queues| > 0 && bufferLen > 0
    }

    ghost predicate Holds(client: Client)
      reads table
    {
      table.Contents().Live(client.id) && table.clientList[client.id].value == client
    }

    method TerminateIfOver(client: Client)
      requires Valid() && Holds(client)
      modifies table
      ensures Valid()
      ensures table.Contents() == After(old(table.Contents()), client.id, client.Contents())
    {
      if client.disconnecting && client.referenceCount == 0 {
        table.TerminateClient(client.id);
      }
    }

    /** A connection is accepted: it gets a client and its first receive. */
    method OnAccept(ok: bool) returns (client: Client)
      requires Valid()
      modifies table
      ensures Valid() && fresh(client) && fresh(client.recvBuffer) && client.recvBuffer.Length == bufferLen
      ensures client.Contents() == Release(PostReceive(NEW_ACCOUNT.(refs := 1), ok))
      ensures old(Sound(table.Contents())) && client.id == old(table.Contents()).NextId()
      ensures var added := old(table.Contents()).Add(client);
              table.Contents() == if ok then added else added.Remove(client.id)
    {
      client := table.AddClient(bufferLen);
      client.IncreaseReferenceCount();
      client.PostReceiveEvent(ok);
      client.DecreaseReferenceCount();
      client.DecreaseReferenceCount();
      AddSound(old(table.Contents()), client);
      TerminateIfOver(client);
    }

    /** A receive has completed: its bytes go to the worker the id selects. */
    method OnReceive(client: Client, bytes: nat)
      requires Valid() && Holds(client)
      modifies `queues, table, client
      ensures Valid() && client.Contents() == ReceiveCompleted(old(client.Contents()), bytes)
      ensures table.Contents() == After(old(table.Contents()), client.id, client.Contents())
      ensures var q := client.id % old(|queues|);
              queues == if Queues(old(client.Contents()), bytes) then old(queues)[q := old(queues)[q] + [client.id]]
                        else old(queues)
    {
      client.DecreaseReferenceCount();
      if client.disconnecting && client.referenceCount == 0 {
        table.TerminateClient(client.id);
      } else if bytes == 0 {
        client.Disconnect();
        if client.referenceCount == 0 {
          table.TerminateClient(client.id);
        }
      } else {
        client.recvLen := client.recvLen + bytes;
        var q := client.id % |queues|;
        queues := queues[q := queues[q] + [client.id]];
      }
    }

    /** A send has completed: the next chunk follows. */
    method OnSend(client: Client, ok: bool)
      requires Valid() && Holds(client) && client.outbound != []
      modifies table, client
      ensures Valid() && client.Contents() == SendFinished(old(client.Contents()), bufferLen, ok)
      ensures table.Contents() == After(old(table.Contents()), client.id, client.Contents())
    {
      client.DecreaseReferenceCount();
      if client.disconnecting && client.referenceCount == 0 {
        table.TerminateClient(client.id);
      } else {
        client.SendDone(bufferLen, ok);
        TerminateIfOver(client);
      }
    }

    /** `send`, for any id. */
    method Send(id: nat, message: string, ok: bool)
      requires Valid()
      modifies table, if table.Contents().Live(id) then {table.clientList[id].value} else {}
      ensures Valid()
      ensures !old(table.Contents().Live(id)) ==> table.Contents() == old(table.Contents())
      ensures old(table.Contents().Live(id)) ==>
                var client := old(table.clientList[id].value);
                && client.Contents() == Release(SendMessage(Borrow(old(client.Contents())), message, bufferLen, ok))
                && table.Contents() == After(old(table.Contents()), id, client.Contents())
    {
      var found := table.GetClient(id);
      if found.Some? {
        var client := found.value;
        client.SendLocked(message, bufferLen, ok);
        client.DecreaseReferenceCount();
        TerminateIfOver(client);
      }
    }

    // ------------------------------------------------- the buffer and the assembler

    ghost function Cfg(): B.Config
      reads assembler
    {
      assembler.ConfigFor(bufferLen)
    }

    /** The first `len` bytes of the client's buffer are what its parser still holds and then what was
        not fed yet; the assembler's state of its id is that parser. */
    ghost predicate Stored(client: Client, parser: B.Machine, unread: string, len: int)
      reads client.recvBuffer, assembler
      reads if client.id in assembler.clientStates then {assembler.clientStates[client.id]} else {}
    {
      && 0 <= len <= client.recvBuffer.Length == bufferLen
      && client.recvBuffer[..len] == parser.held + unread
      && assembler.Separate() && assembler.Accounted(client.id, client.recvBuffer, parser)
    }

    /** The client's account is that of `c`, and buffer and assembler hold what `c` and its parser say. */
    ghost predicate Joined(client: Client, c: Connection, site: Site)
      reads client, client.recvBuffer, assembler
      reads if client.id in assembler.clientStates then {assembler.clientStates[client.id]} else {}
    {
      && client.Contents() == c.account && Feedable(c, site, Cfg())
      && Stored(client, site.parser, c.unread, client.recvLen)
    }

    lemma Unfed(client: Client, c: Connection, site: Site)
      requires Joined(client, c, site)
      ensures assembler.Separate() && assembler.Accounted(client.id, client.recvBuffer, site.parser)
      ensures B.Ready(site.parser, Cfg()) && site.parser.phase != B.Error && bufferLen > 0
      ensures client.Contents() == c.account && client.recvBuffer.Length == bufferLen && client.recvLen <= bufferLen
      ensures client.recvLen >= 0 && |site.parser.held| <= client.recvLen <= client.recvBuffer.Length
      ensures client.recvBuffer[|site.parser.held|..client.recvLen] == c.unread
    {
      var all := client.recvBuffer[..client.recvLen];
      assert client.recvBuffer[|site.parser.held|..client.recvLen] == all[|site.parser.held|..];
    }

    lemma FedJoined(client: Client, c: Connection, site: Site, r: FeedResult)
      requires client.Contents() == c.account.(recvLen := r.left) && client.recvBuffer.Length == bufferLen
      requires assembler.Separate() && assembler.Accounted(client.id, client.recvBuffer, r.parser)
      requires B.Ready(r.parser, Cfg()) && r.parser.phase != B.Error && bufferLen > 0
      requires r.left == |r.parser.held| <= bufferLen
      ensures var after := AfterFeed(c, site, r); Joined(client, after.entry.value, after.site)
    {
      hide B.Ready;
      assert r.parser.held + "" == r.parser.held;
    }

    method CallFeed(client: Client, ghost m: B.Machine, ghost unread: string)
      returns (messages: seq<Message>, error: bool)
      requires assembler.Separate() && assembler.Accounted(client.id, client.recvBuffer, m)
      requires B.Ready(m, Cfg()) && m.phase != B.Error && client.recvBuffer.Length == bufferLen
      requires |m.held| <= client.recvLen <= bufferLen && client.recvBuffer[|m.held|..client.recvLen] == unread
      modifies client`recvLen, client.recvBuffer, assembler`clientStates
      modifies if client.id in assembler.clientStates then {assembler.clientStates[client.id]} else {}
      ensures assembler.Separate()
      ensures client.Contents() == old(client.Contents()).(recvLen := client.recvLen)
      ensures var run := B.Run(m, unread, Cfg());
              && messages == run.messages && (error <==> run.next.phase == B.Error)
              && assembler.Accounted(client.id, client.recvBuffer, if error then B.INITIAL else run.next)
              && client.recvLen == (if error then 0 else |run.next.held|) < bufferLen
    {
      hide B.Run, B.Ready;
      var left: nat;
      left, messages, error := assembler.Feed(client.id, client.recvBuffer, client.recvLen, bufferLen, m,
                                              client.recvLen < bufferLen);
      client.recvLen := left;
    }

    /** `feed` as the worker calls it: it returns what the transition system lets it return, and
        leaves buffer, account and assembler joined. */
    method FeedClient(client: Client, text: string, ghost c: Connection, ghost site: Site)
      returns (messages: seq<Message>, error: bool, ghost r: FeedResult)
      requires Joined(client, c, site)
      modifies client`recvLen, client.recvBuffer, assembler`clientStates
      modifies if client.id in assembler.clientStates then {assembler.clientStates[client.id]} else {}
      ensures FeedReturns(c, site, r, Cfg())
      ensures messages == r.messages && error == r.error && r.text == text && client.recvLen == r.left
      ensures var after := AfterFeed(c, site, r); Joined(client, after.entry.value, after.site)
    {
      hide B.Run, B.Ready, InBuffer, FeedReturns, Feedable, Joined, HttpAssembler.Accounted, HttpAssembler.Separate;
      Unfed(client, c, site);
      ghost var run := B.Run(site.parser, c.unread, Cfg());
      messages, error := CallFeed(client, site.parser, c.unread);
      r := FeedResult(messages, error, text, if error then B.INITIAL else run.next, client.recvLen);
      ReturnsRun(c, site, r, Cfg());
      B.InitialReady(Cfg());
      FedJoined(client, c, site, r);
    }

    lemma ReturnsRun(c: Connection, site: Site, r: FeedResult, cfg: B.Config)
      requires B.Ready(site.parser, cfg)
      requires var run := B.Run(site.parser, c.unread, cfg);
               && r.messages == run.messages && (r.error <==> run.next.phase == B.Error)
               && r.parser == (if r.error then B.INITIAL else run.next)
               && r.left == if r.error then 0 else |run.next.held|
      ensures FeedReturns(c, site, r, cfg)
    {
      hide B.Run, B.Ready;
    }

    /** A client whose id was never fed is joined from the start. */
    lemma NewcomerJoined(client: Client, c: Connection, site: Site)
      requires bufferLen > 0 && client.recvBuffer.Length == bufferLen && client.recvLen == 0
      requires client.Contents() == c.account && c.unread == "" && site.parser == B.INITIAL
      requires assembler.Separate() && client.id !in assembler.clientStates
      ensures Joined(client, c, site)
    {
      B.InitialReady(Cfg());
      assert client.recvBuffer[..0] == "" == "" + "";
    }

    /** The operating system puts the bytes behind those that are there. */
    method Arrive(client: Client, bytes: string, ghost c: Connection, ghost site: Site)
      requires Joined(client, c, site) && client.recvLen + |bytes| <= bufferLen
      modifies client.recvBuffer
      ensures assembler.Accounted(client.id, client.recvBuffer, site.parser)
      ensures client.recvBuffer[..client.recvLen + |bytes|] == site.parser.held + (c.unread + bytes)
    {
      hide B.Ready;
      var len: nat := client.recvLen;
      ghost var held := site.parser.held;
      IO.CopyIn(client.recvBuffer, len, bytes);
      assert client.recvBuffer[..len + |bytes|] == client.recvBuffer[..len] + client.recvBuffer[len..len + |bytes|];
      assert (held + c.unread) + bytes == held + (c.unread + bytes);
      assert client.recvBuffer[..|held|] == client.recvBuffer[..len][..|held|] == held;
    }

    /** Bytes have arrived and the receive completes. */
    method Receive(client: Client, bytes: string, ghost c: Connection, ghost site: Site)
      requires Valid() && Holds(client) && Joined(client, c, site) && site.receives > 0
      requires client.recvLen + |bytes| <= bufferLen
      modifies `queues, table, client, client.recvBuffer
      ensures Valid() && client.Contents() == ReceiveCompleted(old(client.Contents()), |bytes|)
      ensures Queues(c.account, |bytes|) ==>
                var after := AfterReceive(c, site, bytes);
                after.entry.Some? && Joined(client, after.entry.value, after.site)
    {
      hide B.Ready;
      Arrive(client, bytes, c, site);
      OnReceive(client, |bytes|);
    }

    // ---------------------------------------------------------------- the workers

    /** What a worker does with a client that it has borrowed, once `feed` has returned. */
    method Process(client: Client, messages: seq<Message>, error: bool, text: string, ok: bool)
      requires Valid() && Holds(client) && client.referenceCount > 0
      modifies `requests, client, table
      ensures table.Valid() && table.Contents() == old(table.Contents())
      ensures requests == old(requests) + if error then [] else Tagged(client.id, messages)
      ensures client.Contents()
              == var a := old(client.Contents());
                 if error then HangUp(Release(SendMessage(Borrow(a), text, bufferLen, ok))) else PostReceive(a, ok)
    {
      if error {
        Send(client.id, text, ok);
        client.Disconnect();
      } else {
        QueueRequests(client.id, messages);
        client.IncreaseReferenceCount();
        client.PostReceiveEvent(ok);
        client.DecreaseReferenceCount();
      }
    }

    method QueueRequests(id: nat, messages: seq<Message>)
      modifies `requests
      ensures requests == old(requests) + Tagged(id, messages)
    {
      var i := 0;
      assert messages[0..] == messages;
      while i < |messages|
        invariant 0 <= i <= |messages|
        invariant requests + Tagged(id, messages[i..]) == old(requests) + Tagged(id, messages)
      {
        assert messages[i..][1..] == messages[i + 1..];
        assert requests + ([Request(id, messages[i])] + Tagged(id, messages[i + 1..]))
            == (requests + [Request(id, messages[i])]) + Tagged(id, messages[i + 1..]);
        requests := requests + [Request(id, messages[i])];
        i := i + 1;
      }
    }

    /** What a worker does with a client that it has borrowed, up to the termination. */
    method Serve(client: Client, text: string, ok: bool, ghost c: Connection, ghost site: Site)
      returns (ghost r: FeedResult)
      requires Valid() && Holds(client) && Joined(client, c, site) && client.referenceCount > 0
      modifies `requests, table, assembler`clientStates, client, client.recvBuffer
      modifies if client.id in assembler.clientStates then {assembler.clientStates[client.id]} else {}
      ensures Valid() && FeedReturns(c, site, r, Cfg()) && r.text == text
      ensures requests == old(requests) + if r.error then [] else Tagged(client.id, r.messages)
      ensures table.Contents() == After(old(table.Contents()), client.id, client.Contents())
      ensures client.Contents()
              == var a := old(client.Contents()).(recvLen := r.left);
                 Release(if r.error then HangUp(Release(SendMessage(Borrow(a), text, bufferLen, ok)))
                         else PostReceive(a, ok))
      ensures var after := AfterFeed(c, site, r);
              Joined(client, after.entry.value.(account := client.Contents()), after.site)
    {
      hide B.Run, B.Ready, FeedReturns, SendMessage, Stored;
      var messages, error;
      messages, error, r := FeedClient(client, text, c, site);
      SendKeepsLength(Borrow(client.Contents()), text, bufferLen, ok);
      Process(client, messages, error, text, ok);
      client.DecreaseReferenceCount();
      TerminateIfOver(client);
    }

    /** One turn of `assemblerWorker`, for worker `k` whose queue is not empty: the client, if it is
        still there, is fed, and the outcome is one that the transition system allows. */
    method AssembleNext(k: nat, text: string, ok: bool, ghost c: Connection, ghost site: Site)
      returns (ghost r: FeedResult)
      requires Valid() && k < |queues| && queues[k] != []
      requires var id := queues[k][0];
               table.Contents().Live(id) ==>
                 Joined(table.clientList[id].value, c, site) && table.clientList[id].value.referenceCount >= 0
      modifies `queues, `requests, table, assembler`clientStates
      modifies if table.Contents().Live(queues[k][0])
               then {table.clientList[queues[k][0]].value, table.clientList[queues[k][0]].value.recvBuffer} else {}
      modifies if queues[k][0] in assembler.clientStates then {assembler.clientStates[queues[k][0]]} else {}
      ensures Valid() && queues == old(queues)[k := old(queues)[k][1..]]
      ensures var id := old(queues)[k][0];
              !old(table.Contents().Live(id)) ==> table.Contents() == old(table.Contents()) && requests == old(requests)
      ensures var id := old(queues)[k][0];
              old(table.Contents().Live(id)) ==>
                var client := old(table.clientList[queues[k][0]].value);
                && FeedReturns(c.(account := Borrow(c.account)), site, r, Cfg()) && r.text == text
                && client.Contents() == Assembled(old(client.Contents()), r.error, r.text, r.left, bufferLen, ok)
                && requests == old(requests) + (if r.error then [] else Tagged(id, r.messages))
                && table.Contents() == After(old(table.Contents()), id, client.Contents())
      ensures var id := old(queues)[k][0];
              old(table.Contents().Live(id)) ==>
                var client := old(table.clientList[queues[k][0]].value);
                var after := AfterFeed(c.(account := Borrow(c.account)), site, r);
                Joined(client, after.entry.value.(account := client.Contents()), after.site)
    {
      hide B.Run, B.Ready, FeedReturns, SendMessage;
      var id := queues[k][0];
      queues := queues[k := queues[k][1..]];
      var found := table.GetClient(id);
      if found.Some? {
        r := Serve(found.value, text, ok, c.(account := Borrow(c.account)), site);
      } else {
        r := FeedResult([], false, "", B.INITIAL, 0);
      }
    }
  }
}
