/** Whole runs of the server (src/networking/TCPServer.h), with any interleaving of its threads and
    of the operating system. */
module ServerRuns {
  import opened Text
  import opened Http
  import opened Clients
  import opened ClientTables
  import opened ServerState
  import opened ServerSafety
  import B = BoundedParser
  import L = Language
  import F = StreamFits

  lemma StartKeeps(workers: nat, threads: nat, cfg: B.Config)
    requires workers > 0 && cfg.capacity > 0
    ensures Inv(Start(workers, threads), cfg)
  {
  }

  lemma NextKeeps(s: State, e: Event, cfg: B.Config)
    requires Inv(s, cfg) && Enabled(s, e, cfg)
    ensures Inv(Next(s, e, cfg), cfg)
  {
    match e
    case Accepted => AcceptKeeps(s, cfg);
    case ReceivePosted(t, ok) => ReceivePostedKeeps(s, t, ok, cfg);
    case Dropped(t) => DroppedKeeps(s, t, cfg);
    case ReceiveDone(id, bytes) => ReceiveDoneKeeps(s, id, bytes, cfg);
    case SendDone(id, ok) => SendDoneKeeps(s, id, ok, cfg);
    case Requested(t, id, message) => RequestedKeeps(s, t, id, message, cfg);
    case Sent(t, ok) => SentKeepsAll(s, t, s.tasks[t].value.stage.message, Dropping, ok, cfg);
    case Taken(t) => TakenKeeps(s, t, cfg);
    case Fetched(t) => FetchedKeeps(s, t, cfg);
    case Fed(t, r) => FedKeeps(s, t, r, cfg);
    case Rejected(t, ok) => SentKeepsAll(s, t, s.tasks[t].value.stage.text, HangingUp, ok, cfg);
    case HungUp(t) => HungUpKeeps(s, t, cfg);
  }

  /** The invariant holds after every run, whatever the order of events. */
  lemma {:induction false} RunKeeps(s: State, events: seq<Event>, cfg: B.Config)
    requires Inv(s, cfg)
    ensures Inv(Run(s, events, cfg), cfg)
    decreases |events|
  {
    hide Inv, Enabled, Next;
    if events != [] {
      if Enabled(s, events[0], cfg) {
        NextKeeps(s, events[0], cfg);
        RunKeeps(Next(s, events[0], cfg), events[1..], cfg);
      } else {
        RunKeeps(s, events[1..], cfg);
      }
    }
  }

  /** The states the server can be in. */
  ghost predicate Reachable(s: State, cfg: B.Config) {
    cfg.capacity > 0 &&
    exists workers: nat, threads: nat, events: seq<Event> ::
      workers > 0 && s == Run(Start(workers, threads), events, cfg)
  }

  lemma ReachableKeeps(s: State, cfg: B.Config)
    requires Reachable(s, cfg)
    ensures Inv(s, cfg)
  {
    hide Inv, Run;
    var workers: nat, threads: nat, events: seq<Event> :|
      workers > 0 && s == Run(Start(workers, threads), events, cfg);
    StartKeeps(workers, threads, cfg);
    RunKeeps(Start(workers, threads), events, cfg);
  }

  lemma ReachableView(s: State, id: nat, cfg: B.Config)
    requires Reachable(s, cfg) && id < |s.table.slots|
    ensures id < |s.sites| && |s.queues| > 0 && Ok(ViewOf(s, id), cfg)
  {
    hide Reachable, Ok;
    ReachableKeeps(s, cfg);
  }

  // ------------------------------------------------------- what that comes to

  /** Reference counting: no operation completes for a client that is gone. */
  lemma CompletionsFindTheirClient(s: State, id: nat, cfg: B.Config)
    requires Reachable(s, cfg) && id < |s.sites|
    requires s.sites[id].receives > 0 || s.sites[id].sends != []
    ensures s.Served(id)
    ensures s.sites[id].sends != [] ==>
              s.Conn(id).account.outbound != [] && s.sites[id].sends == [s.Conn(id).account.outbound[0]]
  {
    hide Reachable, InOrder;
    ReachableKeeps(s, cfg);
    ReachableView(s, id, cfg);
  }

  /** No thread that holds a reference holds one to a client that is gone. */
  lemma BorrowersFindTheirClient(s: State, t: nat, cfg: B.Config)
    requires Reachable(s, cfg) && t < |s.tasks| && s.tasks[t].Some? && !s.tasks[t].value.stage.Fetching?
    ensures s.Served(s.tasks[t].value.id)
  {
    hide Reachable, InOrder, Tally;
    ReachableKeeps(s, cfg);
    var id := s.tasks[t].value.id;
    ReachableView(s, id, cfg);
    Present(s, t, id, Borrower);
  }

  /** A client that is disconnecting does not outlive its last reference. */
  lemma CountIsExact(s: State, id: nat, cfg: B.Config)
    requires Reachable(s, cfg) && s.table.Live(id)
    ensures id < |s.sites|
    ensures s.Conn(id).account.refs
            == s.sites[id].receives + |s.sites[id].sends| + Tally(s.tasks, id, Borrower)
    ensures s.Conn(id).account.disconnecting ==> s.Conn(id).account.refs > 0
  {
    hide Reachable, InOrder, Tally, Delivered;
    ReachableView(s, id, cfg);
  }

  /** Outbound conservation, with at most one send pending, of the front of the queue. */
  lemma OutboundConserved(s: State, id: nat, cfg: B.Config)
    requires Reachable(s, cfg) && s.table.Live(id)
    ensures id < |s.sites|
    ensures var a := s.Conn(id).account;
            && s.Conn(id).completed + Concat(a.outbound) == s.Conn(id).accepted
            && (s.sites[id].sends == [] || (a.outbound != [] && s.sites[id].sends == [a.outbound[0]]))
            && (!a.disconnecting && a.outbound != [] ==> |s.sites[id].sends| == 1)
            && (forall k, ok :: 0 <= k < |a.outbound| ==> (SendPosted(a.outbound[k], cfg.capacity, ok) <==> ok))
  {
    hide Reachable, InOrder, Tally, Concat;
    ReachableView(s, id, cfg);
  }

  /** How often the receive buffer of `id` is owned: receives that pend, queued ids, the worker that
      has its bytes, threads about to post its receive. */
  function Owners(s: State, id: nat): nat
    requires id < |s.sites| && |s.queues| > 0
  {
    s.sites[id].receives + multiset(s.queues[id % |s.queues|])[id]
    + Tally(s.tasks, id, Reader) + Tally(s.tasks, id, Poster)
  }

  /** Receive-buffer ownership: exactly one owner while the client is live and neither disconnecting
      nor rejected, none otherwise. */
  predicate OwnedRightly(s: State, id: nat) {
    id < |s.sites| && |s.queues| > 0 ==>
      Owners(s, id) == if s.table.Live(id) && !Leaving(s.Conn(id)) then 1 else 0
  }

  lemma OneOwner(s: State, id: nat, cfg: B.Config)
    requires Reachable(s, cfg) && id < |s.sites| && !s.sites[id].tainted
    ensures |s.queues| > 0 && OwnedRightly(s, id)
  {
    hide Reachable, InOrder, Tally, Delivered, Referenced;
    ReachableKeeps(s, cfg);
    ReachableView(s, id, cfg);
  }

  /** So a queued id is the id of a live client, which has no receive pending and is queued once,
      with the worker its id selects. */
  lemma QueuedIsLive(s: State, q: nat, k: nat, cfg: B.Config)
    requires Reachable(s, cfg) && q < |s.queues| && k < |s.queues[q]|
    ensures var id := s.queues[q][k];
            && id < |s.sites| && id % |s.queues| == q
            && (!s.sites[id].tainted ==>
                  && s.Served(id) && !Leaving(s.Conn(id)) && s.sites[id].receives == 0
                  && forall i :: 0 <= i < |s.queues[q]| && s.queues[q][i] == id ==> i == k)
  {
    hide Reachable, Tally, Sound, Counted;
    ReachableKeeps(s, cfg);
    var id := s.queues[q][k];
    if !s.sites[id].tainted {
      OneOwner(s, id, cfg);
      forall i | 0 <= i < |s.queues[q]| && s.queues[q][i] == id
        ensures i == k
      {
        if i < k {
          Twice(s.queues[q], i, k);
        } else if k < i {
          Twice(s.queues[q], k, i);
        }
      }
    }
  }

  lemma Twice(queue: seq<nat>, i: nat, k: nat)
    requires i < k < |queue| && queue[i] == queue[k]
    ensures multiset(queue)[queue[i]] >= 2
  {
    assert queue == queue[..k] + queue[k..];
    assert queue[k..] == [queue[k]] + queue[k + 1..];
    assert queue[..k][i] == queue[i];
  }

  /** What was queued for a client since it connected. */
  function RequestsSince(s: State, id: nat): seq<Message>
    requires s.table.Live(id)
  {
    var all := Of(s.requests, id);
    if s.Conn(id).base <= |all| then all[s.Conn(id).base..] else []
  }

  /** A client whose id's parser was in the initial state when it connected, of which no send was lost
      and which did not inherit a stranded id: the requests queued for it are those of the fold over
      the bytes it was fed, up to the batch at which that fails; and it is rejected when that fails. */
  lemma RequestsInOrder(s: State, id: nat, cfg: B.Config)
    requires Reachable(s, cfg) && s.table.Live(id) && s.Conn(id).clean
    requires id < |s.sites| && !s.sites[id].tainted
    ensures B.Ready(B.INITIAL, cfg)
    ensures var c := s.Conn(id);
            var run := B.Run(B.INITIAL, c.parsed, cfg);
            && RequestsSince(s, id) == run.messages && run.next.phase != B.Error
            && c.parsed <= c.fed && (!c.rejected ==> c.parsed == c.fed)
            && (c.rejected <==> B.Run(B.INITIAL, c.fed, cfg).next.phase == B.Error)
  {
    hide Reachable, Tally, B.Run, B.Ready, Delivered, Of;
    ReachableView(s, id, cfg);
  }

  /** The first client of an id is such a client, and every request of its id is its own. */
  lemma FirstClientIsClean(s: State, id: nat, cfg: B.Config)
    requires Reachable(s, cfg) && s.table.Live(id) && id < |s.sites| && s.sites[id].uses == 1
    ensures s.Conn(id).clean && RequestsSince(s, id) == Of(s.requests, id)
  {
    hide Reachable, Tally, InOrder, Delivered, Of;
    ReachableView(s, id, cfg);
    assert Of(s.requests, id)[0..] == Of(s.requests, id);
  }

  /** A pending receive has a window of at least one byte, behind everything that is held. */
  lemma RoomToReceive(s: State, id: nat, cfg: B.Config)
    requires Reachable(s, cfg) && s.table.Live(id) && id < |s.sites| && s.sites[id].receives > 0
    requires s.Conn(id).clean && !s.sites[id].tainted
    ensures s.Conn(id).account.recvLen == |s.sites[id].parser.held| < cfg.capacity
  {
    hide Reachable, Tally, B.Run, B.Ready, Delivered, Of;
    ReachableView(s, id, cfg);
    ReadyRoom(s.sites[id].parser, cfg);
  }

  /** From one end to the other: of a client that pipelines clean requests with short lines, in one
      piece or in chunks, whatever the fragmentation and the interleaving, what is queued is what is
      due for them, in order, as far as they have come; and it is not rejected. */
  lemma PipelineArrives(s: State, id: nat, xs: seq<L.Exchange>, rest: string, cfg: B.Config)
    requires Reachable(s, cfg) && s.table.Live(id) && s.Conn(id).clean
    requires id < |s.sites| && !s.sites[id].tainted
    requires F.AllShort(xs, cfg)
    requires s.Conn(id).fed + rest == L.AllSent(xs)
    ensures !s.Conn(id).rejected
    ensures RequestsSince(s, id) <= L.AllDue(xs)
    ensures rest == "" ==> RequestsSince(s, id) == L.AllDue(xs)
  {
    hide Reachable, B.Run, B.Ready, L.AllSent, L.AllDue, F.AllShort, Of, RequestsSince;
    ReachableKeeps(s, cfg);
    RequestsInOrder(s, id, cfg);
    F.PipelineThroughBuffer(xs, cfg);
    var c := s.Conn(id);
    B.RunAppend(B.INITIAL, c.fed, rest, cfg);
    if c.rejected {
      B.ErrorStays(B.Run(B.INITIAL, c.fed, cfg).next, rest, cfg);
    } else if rest == "" {
      assert c.fed + rest == c.fed;
    }
  }

  /** The slot table: free ids are the empty slots, each once; the table is as long as the most
      clients that were ever live at once. */
  lemma SlotsInOrder(s: State, cfg: B.Config)
    requires Reachable(s, cfg)
    ensures Sound(s.table) && Counted(s.table) && |s.table.slots| == s.peak
  {
    hide Reachable;
    ReachableKeeps(s, cfg);
  }

  // ------------------------------------------- why failed sends have to be left out

  /** A run with one more event is the run, and then the event if it can happen. */
  lemma {:induction false} RunSnoc(s: State, events: seq<Event>, e: Event, cfg: B.Config)
    requires cfg.capacity > 0
    ensures var u := Run(s, events, cfg);
            Run(s, events + [e], cfg) == if Enabled(u, e, cfg) then Next(u, e, cfg) else u
    decreases |events|
  {
    hide Enabled, Next;
    if events == [] {
      assert [] + [e] == [e] && [e][1..] == [];
    } else {
      assert (events + [e])[1..] == events[1..] + [e];
      RunSnoc(if Enabled(s, events[0], cfg) then Next(s, events[0], cfg) else s, events[1..], e, cfg);
    }
  }

  lemma ReachableNext(s: State, e: Event, cfg: B.Config)
    requires Reachable(s, cfg) && Enabled(s, e, cfg)
    ensures Reachable(Next(s, e, cfg), cfg)
  {
    hide Enabled, Next, Run, Start;
    var workers: nat, threads: nat, events: seq<Event> :|
      workers > 0 && s == Run(Start(workers, threads), events, cfg);
    RunSnoc(Start(workers, threads), events, e, cfg);
  }

  /** One worker that is idle, one application thread, and at most one client. */
  function Scene(c: Option<Connection>, site: Site, queue: seq<nat>,
                 listener: Option<Stage>, app: Option<Stage>): State
  {
    State(Table([c], if c.None? then [0] else []), [site], [queue], [Doing(listener), None, Doing(app)], [], 1)
  }

  function Doing(stage: Option<Stage>): Option<Task> {
    match stage case None => None case Some(what) => Some(Task(0, what))
  }

  const NEWEST := Connection(NEW_ACCOUNT.(refs := 1), "", "", "", "", "", true, false, 0)
  const USED := NEW_SITE.(uses := 1)

  lemma Connects(cfg: B.Config)
    requires cfg.capacity > 0
    ensures Reachable(Scene(Some(NEWEST), USED, [], Some(Posting), None), cfg)
  {
    var s := Start(1, 1);
    assert Run(s, [], cfg) == s;
    assert Reachable(s, cfg);
    ReachableNext(s, Accepted, cfg);
    assert s.table.Add(NEWEST) == Table([Some(NEWEST)], []);
    assert CountLive([Some(NEWEST)]) == 1 by {
      CountLiveAppend([], NEWEST);
      assert [] + [Some(NEWEST)] == [Some(NEWEST)];
    }
    assert Accept(s) == Scene(Some(NEWEST), USED, [], Some(Posting), None);
  }

  lemma Waits(cfg: B.Config)
    requires cfg.capacity > 0
    ensures Reachable(Scene(Some(NEWEST), USED.(receives := 1), [], None, None), cfg)
  {
    hide Reachable;
    Connects(cfg);
    var posted := Scene(Some(NEWEST), USED, [], Some(Posting), None);
    ReachableNext(posted, ReceivePosted(0, true), cfg);
    var c := NEWEST.(account := NEW_ACCOUNT.(refs := 2));
    var posting := Scene(Some(c), USED.(receives := 1), [], Some(Dropping), None);
    assert Next(posted, ReceivePosted(0, true), cfg) == posting;
    ReachableNext(posting, Dropped(0), cfg);
    assert Next(posting, Dropped(0), cfg) == Scene(Some(NEWEST), USED.(receives := 1), [], None, None);
  }

  lemma Asks(cfg: B.Config)
    requires cfg.capacity > 0
    ensures var c := NEWEST.(account := NEW_ACCOUNT.(refs := 2));
            Reachable(Scene(Some(c), USED.(receives := 1), [], None, Some(Sending("x"))), cfg)
  {
    hide Reachable;
    Waits(cfg);
    var waiting := Scene(Some(NEWEST), USED.(receives := 1), [], None, None);
    ReachableNext(waiting, Requested(2, 0, "x"), cfg);
    var c := NEWEST.(account := NEW_ACCOUNT.(refs := 2));
    var asked := Scene(Some(c), USED.(receives := 1), [], None, Some(Sending("x")));
    assert Next(waiting, Requested(2, 0, "x"), cfg) == asked;
  }

  /** A byte arrives while the application is about to send. */
  lemma ReadStep(c: Connection, d: Connection, cfg: B.Config)
    requires cfg.capacity > 0 && c == NEWEST.(account := NEW_ACCOUNT.(refs := 2))
    requires d == NEWEST.(account := NEW_ACCOUNT.(refs := 1, recvLen := 1), unread := "y")
    ensures var s := Scene(Some(c), USED.(receives := 1), [], None, Some(Sending("x")));
            Enabled(s, ReceiveDone(0, "y"), cfg)
            && Next(s, ReceiveDone(0, "y"), cfg) == Scene(Some(d), USED, [0], None, Some(Sending("x")))
  {
    var s := Scene(Some(c), USED.(receives := 1), [], None, Some(Sending("x")));
    assert "" + "y" == "y" && [] + [0] == [0];
    assert AfterReceive(c, s.sites[0], "y") == Local(Some(d), USED);
    assert s.Put(0, Local(Some(d), USED)) == Scene(Some(d), USED, [], None, Some(Sending("x")));
  }

  lemma Reads(cfg: B.Config)
    requires cfg.capacity > 0
    ensures var d := NEWEST.(account := NEW_ACCOUNT.(refs := 1, recvLen := 1), unread := "y");
            Reachable(Scene(Some(d), USED, [0], None, Some(Sending("x"))), cfg)
  {
    hide Reachable, Enabled, Next;
    Asks(cfg);
    var c := NEWEST.(account := NEW_ACCOUNT.(refs := 2));
    var d := NEWEST.(account := NEW_ACCOUNT.(refs := 1, recvLen := 1), unread := "y");
    ReadStep(c, d, cfg);
    ReachableNext(Scene(Some(c), USED.(receives := 1), [], None, Some(Sending("x"))), ReceiveDone(0, "y"), cfg);
  }

  lemma Fails(cfg: B.Config)
    requires cfg.capacity > 0
    ensures Reachable(Scene(None, USED.(tainted := true), [0], None, None), cfg)
  {
    hide Reachable;
    Reads(cfg);
    var c := NEWEST.(account := NEW_ACCOUNT.(refs := 1, recvLen := 1), unread := "y");
    var queued := Scene(Some(c), USED, [0], None, Some(Sending("x")));
    ReachableNext(queued, Sent(2, false), cfg);
    var d := c.(account := Account(1, true, false, ["x"], 1), accepted := "x");
    var failed := Scene(Some(d), USED.(tainted := true), [0], None, Some(Dropping));
    assert "" + "x" == "x" && [] + ["x"] == ["x"];
    assert SendMessage(c.account, "x", cfg.capacity, false) == d.account;
    assert AfterSend(c, USED, "x", cfg.capacity, false) == Local(Some(d), USED.(tainted := true));
    assert Next(queued, Sent(2, false), cfg) == failed;
    ReachableNext(failed, Dropped(2), cfg);
    assert Next(failed, Dropped(2), cfg) == Scene(None, USED.(tainted := true), [0], None, None);
  }

  /** A send that cannot be posted, while bytes of the same client are being queued, ends the client
      under the queued id: the id is then of no client, and after the next connection of another
      client that never received anything. */
  lemma FailedSendStrandsId(cfg: B.Config) returns (s: State, next: State)
    requires cfg.capacity > 0
    ensures Reachable(s, cfg) && s.queues == [[0]] && !s.table.Live(0)
    ensures Reachable(next, cfg) && next.queues == [[0]] && next.Served(0)
    ensures next.sites[0].uses == 2 && next.Conn(0).fed == next.Conn(0).unread == ""
  {
    hide Reachable;
    Fails(cfg);
    s := Scene(None, USED.(tainted := true), [0], None, None);
    ReachableNext(s, Accepted, cfg);
    next := Accept(s);
  }
}
