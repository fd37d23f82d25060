/** The operations of the server, run alone, are steps of the transition system: what the methods of
    TcpServer ensure of one client is what these steps make of it. */
module ServerSteps {
  import opened Clients
  import opened ClientTables
  import opened ServerState
  import B = BoundedParser

  /** Only the client of `id`, its site, the threads and what `queues` and `requests` say differ. */
  predicate Beside(s: State, u: State, id: nat, queues: seq<seq<nat>>, requests: seq<Request>) {
    && |u.table.slots| == |s.table.slots| && u.table.freeIds == s.table.freeIds
    && (forall j :: 0 <= j < |s.table.slots| && j != id ==> u.table.slots[j] == s.table.slots[j])
    && u.queues == queues && u.requests == requests
  }

  /** Client `id` is left with account `a`, or has ended if that is over; no other client differs. */
  predicate LeftAs(s: State, u: State, id: nat, a: Account) {
    && |u.table.slots| == |s.table.slots|
    && u.table.freeIds == (if Over(a) then s.table.freeIds + [id] else s.table.freeIds)
    && (forall j :: 0 <= j < |s.table.slots| && j != id ==> u.table.slots[j] == s.table.slots[j])
    && if Over(a) then !u.table.Live(id) else u.Served(id) && u.Conn(id).account == a
  }

  lemma ThenLeft(s: State, u: State, v: State, id: nat, a: Account, queues: seq<seq<nat>>, requests: seq<Request>)
    requires Beside(s, u, id, queues, requests) && LeftAs(u, v, id, a)
    ensures LeftAs(s, v, id, a)
  {
  }

  lemma BesideSame(s: State, u: State, id: nat, queues: seq<seq<nat>>, requests: seq<Request>)
    requires Beside(s, u, id, queues, requests)
    ensures u.queues == queues && u.requests == requests
  {
  }

  lemma ThenBeside(s: State, u: State, v: State, id: nat, queues: seq<seq<nat>>, requests: seq<Request>)
    requires Beside(s, u, id, u.queues, u.requests) && Beside(u, v, id, queues, requests)
    ensures Beside(s, v, id, queues, requests)
  {
  }

  /** All of `events` are possible one after the other, and lead from `s` to `next`. */
  ghost predicate Steps(s: State, events: seq<Event>, next: State, cfg: B.Config)
    requires cfg.capacity > 0
    decreases |events|
  {
    if events == [] then s == next
    else Enabled(s, events[0], cfg) && Steps(Next(s, events[0], cfg), events[1..], next, cfg)
  }

  lemma TwoSteps(s: State, e: Event, f: Event, cfg: B.Config)
    requires cfg.capacity > 0 && Enabled(s, e, cfg) && Enabled(Next(s, e, cfg), f, cfg)
    ensures Steps(s, [e, f], Next(Next(s, e, cfg), f, cfg), cfg)
  {
    hide Enabled, Next;
    var u := Next(s, e, cfg);
    assert [e, f][1..] == [f] && [f][1..] == [];
    assert Steps(Next(u, f, cfg), [], Next(u, f, cfg), cfg);
    assert Steps(u, [f], Next(u, f, cfg), cfg);
  }

  lemma OneMore(s: State, e: Event, events: seq<Event>, next: State, cfg: B.Config)
    requires cfg.capacity > 0 && Enabled(s, e, cfg) && Steps(Next(s, e, cfg), events, next, cfg)
    ensures Steps(s, [e] + events, next, cfg)
  {
    hide Enabled, Next;
    assert ([e] + events)[1..] == events;
  }

  /** A thread in `Dropping` gives its reference up. */
  lemma DropStep(s: State, t: nat, id: nat, cfg: B.Config)
    requires cfg.capacity > 0 && s.At(t, Dropping) && s.tasks[t].value.id == id
    ensures Enabled(s, Dropped(t), cfg)
    ensures var u := Next(s, Dropped(t), cfg);
            && LeftAs(s, u, id, Release(s.Conn(id).account)) && u.Idle(t)
            && u.queues == s.queues && u.requests == s.requests
  {
  }

  lemma BorrowStep(s: State, t: nat, id: nat, message: string, cfg: B.Config)
    requires cfg.capacity > 0 && s.Served(id) && s.Idle(t) && t > |s.queues|
    ensures Enabled(s, Requested(t, id, message), cfg)
    ensures var u := Next(s, Requested(t, id, message), cfg);
            && u.At(t, Sending(message)) && u.tasks[t].value.id == id && Beside(s, u, id, s.queues, s.requests)
            && u.Conn(id).account == Borrow(s.Conn(id).account)
  {
  }

  lemma SendStep(s: State, t: nat, id: nat, message: string, ok: bool, cfg: B.Config)
    requires cfg.capacity > 0 && s.At(t, Sending(message)) && s.tasks[t].value.id == id
    ensures Enabled(s, Sent(t, ok), cfg)
    ensures var u := Next(s, Sent(t, ok), cfg);
            && u.At(t, Dropping) && u.tasks[t].value.id == id && Beside(s, u, id, s.queues, s.requests)
            && u.Conn(id).account == SendMessage(s.Conn(id).account, message, cfg.capacity, ok)
  {
  }

  /** `TcpServer.Send` of a live client. */
  lemma SendIsSteps(s: State, t: nat, id: nat, message: string, ok: bool, cfg: B.Config) returns (next: State)
    requires cfg.capacity > 0 && s.Served(id) && s.Idle(t) && t > |s.queues|
    ensures Steps(s, [Requested(t, id, message), Sent(t, ok), Dropped(t)], next, cfg)
    ensures var a := s.Conn(id).account;
            && LeftAs(s, next, id, Release(SendMessage(Borrow(a), message, cfg.capacity, ok))) && next.Idle(t)
            && next.queues == s.queues && next.requests == s.requests
  {
    hide Enabled, Next, Steps, LeftAs, Beside;
    BorrowStep(s, t, id, message, cfg);
    var u := Next(s, Requested(t, id, message), cfg);
    SendStep(u, t, id, message, ok, cfg);
    var v := Next(u, Sent(t, ok), cfg);
    DropStep(v, t, id, cfg);
    next := Next(v, Dropped(t), cfg);
    ThenBeside(s, u, v, id, s.queues, s.requests);
    ThenLeft(s, v, next, id, Release(v.Conn(id).account), s.queues, s.requests);
    TwoSteps(u, Sent(t, ok), Dropped(t), cfg);
    OneMore(s, Requested(t, id, message), [Sent(t, ok), Dropped(t)], next, cfg);
    assert [Requested(t, id, message)] + [Sent(t, ok), Dropped(t)]
        == [Requested(t, id, message), Sent(t, ok), Dropped(t)];
  }

  /** `TcpServer.OnReceive`: the same account, table and queues. */
  lemma ReceiveIsStep(s: State, id: nat, bytes: string, cfg: B.Config)
    requires cfg.capacity > 0 && Enabled(s, ReceiveDone(id, bytes), cfg)
    ensures var a, u, q := s.Conn(id).account, Next(s, ReceiveDone(id, bytes), cfg), id % |s.queues|;
            && LeftAs(s, u, id, ReceiveCompleted(a, |bytes|)) && u.requests == s.requests
            && u.queues == if Queues(a, |bytes|) then s.queues[q := s.queues[q] + [id]] else s.queues
  {
  }

  /** `TcpServer.OnSend`. */
  lemma SendDoneIsStep(s: State, id: nat, ok: bool, cfg: B.Config)
    requires cfg.capacity > 0 && Enabled(s, SendDone(id, ok), cfg)
    ensures var u := Next(s, SendDone(id, ok), cfg);
            && LeftAs(s, u, id, SendFinished(s.Conn(id).account, cfg.capacity, ok))
            && u.queues == s.queues && u.requests == s.requests
  {
  }

  lemma PostStep(s: State, t: nat, id: nat, ok: bool, cfg: B.Config)
    requires cfg.capacity > 0 && s.At(t, Posting) && s.tasks[t].value.id == id
    ensures Enabled(s, ReceivePosted(t, ok), cfg)
    ensures var u := Next(s, ReceivePosted(t, ok), cfg);
            && u.At(t, Dropping) && u.tasks[t].value.id == id && Beside(s, u, id, s.queues, s.requests)
            && u.Conn(id).account == PostReceive(s.Conn(id).account, ok)
  {
  }

  lemma AcceptStep(s: State, cfg: B.Config)
    requires cfg.capacity > 0 && Enabled(s, Accepted, cfg)
    ensures var id := s.table.NextId();
            var u := Next(s, Accepted, cfg);
            && u.At(0, Posting) && u.tasks[0].value.id == id && u.Conn(id).account == NEW_ACCOUNT.(refs := 1)
            && u.table == s.table.Add(u.Conn(id)) && u.queues == s.queues && u.requests == s.requests
  {
    AddSound(s.table, Accept(s).table.slots[s.table.NextId()].value);
  }

  /** `TcpServer.OnAccept`: the new client is added to the table, and then left with its account. */
  lemma AcceptIsSteps(s: State, ok: bool, cfg: B.Config) returns (next: State)
    requires cfg.capacity > 0 && Enabled(s, Accepted, cfg)
    ensures Steps(s, [Accepted, ReceivePosted(0, ok), Dropped(0)], next, cfg)
    ensures var id, u := s.table.NextId(), Next(s, Accepted, cfg);
            && u.Served(id) && u.table == s.table.Add(u.Conn(id))
            && LeftAs(u, next, id, Release(PostReceive(NEW_ACCOUNT.(refs := 1), ok)))
            && next.queues == s.queues && next.requests == s.requests
  {
    var id := s.table.NextId();
    AcceptStep(s, cfg);
    hide Enabled, Next, Steps, LeftAs, Beside;
    var u := Next(s, Accepted, cfg);
    PostStep(u, 0, id, ok, cfg);
    var v := Next(u, ReceivePosted(0, ok), cfg);
    DropStep(v, 0, id, cfg);
    next := Next(v, Dropped(0), cfg);
    BesideSame(u, v, id, u.queues, u.requests);
    ThenLeft(u, v, next, id, Release(v.Conn(id).account), u.queues, u.requests);
    TwoSteps(u, ReceivePosted(0, ok), Dropped(0), cfg);
    OneMore(s, Accepted, [ReceivePosted(0, ok), Dropped(0)], next, cfg);
    assert [Accepted] + [ReceivePosted(0, ok), Dropped(0)] == [Accepted, ReceivePosted(0, ok), Dropped(0)];
  }

  lemma TakeStep(s: State, t: nat, id: nat, cfg: B.Config)
    requires cfg.capacity > 0 && s.Idle(t) && s.IsWorker(t) && s.Served(id)
    requires s.queues[t - 1] != [] && s.queues[t - 1][0] == id
    ensures Enabled(s, Taken(t), cfg)
    ensures var u := Next(s, Taken(t), cfg);
            && u.At(t, Fetching) && u.tasks[t].value.id == id && u.table == s.table && u.sites == s.sites
            && u.queues == s.queues[t - 1 := s.queues[t - 1][1..]] && u.requests == s.requests
  {
  }

  lemma TakenBeside(s: State, u: State, id: nat)
    requires u.table == s.table
    ensures Beside(s, u, id, u.queues, u.requests)
  {
  }

  lemma FetchStep(s: State, t: nat, id: nat, cfg: B.Config)
    requires cfg.capacity > 0 && s.At(t, Fetching) && s.tasks[t].value.id == id
    ensures Enabled(s, Fetched(t), cfg)
    ensures var u := Next(s, Fetched(t), cfg);
            && u.At(t, Feeding) && u.tasks[t].value.id == id && u.sites == s.sites
            && Beside(s, u, id, s.queues, s.requests)
            && u.Conn(id) == s.Conn(id).(account := Borrow(s.Conn(id).account))
  {
  }

  lemma FeedStep(s: State, t: nat, id: nat, r: FeedResult, cfg: B.Config)
    requires cfg.capacity > 0 && s.At(t, Feeding) && s.tasks[t].value.id == id
    requires FeedReturns(s.Conn(id), s.sites[id], r, cfg)
    ensures Enabled(s, Fed(t, r), cfg)
    ensures var u := Next(s, Fed(t, r), cfg);
            && u.At(t, if r.error then Rejecting(r.text) else Posting) && u.tasks[t].value.id == id
            && Beside(s, u, id, s.queues, s.requests + if r.error then [] else Tagged(id, r.messages))
            && u.Conn(id).account == s.Conn(id).account.(recvLen := r.left)
  {
    hide FeedReturns, Tagged;
    assert s.requests + [] == s.requests;
  }

  lemma RejectStep(s: State, t: nat, id: nat, text: string, ok: bool, cfg: B.Config)
    requires cfg.capacity > 0 && s.At(t, Rejecting(text)) && s.tasks[t].value.id == id
    ensures Enabled(s, Rejected(t, ok), cfg)
    ensures var u := Next(s, Rejected(t, ok), cfg);
            && u.At(t, HangingUp) && u.tasks[t].value.id == id && Beside(s, u, id, s.queues, s.requests)
            && u.Conn(id).account == SendMessage(s.Conn(id).account, text, cfg.capacity, ok)
  {
  }

  lemma HangUpStep(s: State, t: nat, id: nat, cfg: B.Config)
    requires cfg.capacity > 0 && s.At(t, HangingUp) && s.tasks[t].value.id == id
    ensures Enabled(s, HungUp(t), cfg)
    ensures var u := Next(s, HungUp(t), cfg);
            && u.At(t, Dropping) && u.tasks[t].value.id == id && Beside(s, u, id, s.queues, s.requests)
            && u.Conn(id).account == HangUp(s.Conn(id).account)
  {
  }

  /** The steps of a worker that has just fed the client, up to the release. */
  lemma Answer(s: State, t: nat, id: nat, r: FeedResult, ok: bool, cfg: B.Config) returns (next: State)
    requires cfg.capacity > 0 && s.At(t, if r.error then Rejecting(r.text) else Posting) && s.tasks[t].value.id == id
    ensures Steps(s, Answers(t, r, ok), next, cfg)
    ensures var a := s.Conn(id).account;
            var b := if r.error then HangUp(SendMessage(a, r.text, cfg.capacity, ok)) else PostReceive(a, ok);
            LeftAs(s, next, id, Release(b)) && next.queues == s.queues && next.requests == s.requests
  {
    hide Enabled, Next, Steps, LeftAs, Beside;
    if r.error {
      RejectStep(s, t, id, r.text, ok, cfg);
      var u := Next(s, Rejected(t, ok), cfg);
      HangUpStep(u, t, id, cfg);
      var v := Next(u, HungUp(t), cfg);
      DropStep(v, t, id, cfg);
      next := Next(v, Dropped(t), cfg);
      ThenBeside(s, u, v, id, s.queues, s.requests);
      BesideSame(s, v, id, s.queues, s.requests);
      ThenLeft(s, v, next, id, Release(v.Conn(id).account), s.queues, s.requests);
      TwoSteps(u, HungUp(t), Dropped(t), cfg);
      OneMore(s, Rejected(t, ok), [HungUp(t), Dropped(t)], next, cfg);
      assert [Rejected(t, ok)] + [HungUp(t), Dropped(t)] == Answers(t, r, ok);
    } else {
      PostStep(s, t, id, ok, cfg);
      var u := Next(s, ReceivePosted(t, ok), cfg);
      DropStep(u, t, id, cfg);
      next := Next(u, Dropped(t), cfg);
      BesideSame(s, u, id, s.queues, s.requests);
      ThenLeft(s, u, next, id, Release(u.Conn(id).account), s.queues, s.requests);
      TwoSteps(s, ReceivePosted(t, ok), Dropped(t), cfg);
    }
  }

  function Answers(t: nat, r: FeedResult, ok: bool): seq<Event> {
    if r.error then [Rejected(t, ok), HungUp(t), Dropped(t)] else [ReceivePosted(t, ok), Dropped(t)]
  }

  /** The references that `Send` takes and returns inside a worker's turn cancel out. */
  lemma NestedSend(a: Account, text: string, size: nat, ok: bool)
    requires size > 0
    ensures Release(SendMessage(Borrow(a), text, size, ok)) == SendMessage(a, text, size, ok)
  {
    hide Chunks;
  }

  /** `TcpServer.AssembleNext` for a live client: the same account, table, queues and requests. */
  lemma AssembleIsSteps(s: State, t: nat, id: nat, r: FeedResult, ok: bool, cfg: B.Config) returns (next: State)
    requires cfg.capacity > 0 && s.Idle(t) && s.IsWorker(t) && s.Served(id)
    requires s.queues[t - 1] != [] && s.queues[t - 1][0] == id
    requires FeedReturns(s.Conn(id).(account := Borrow(s.Conn(id).account)), s.sites[id], r, cfg)
    ensures Steps(s, [Taken(t)] + ([Fetched(t)] + ([Fed(t, r)] + Answers(t, r, ok))), next, cfg)
    ensures LeftAs(s, next, id, Assembled(s.Conn(id).account, r.error, r.text, r.left, cfg.capacity, ok))
    ensures next.queues == s.queues[t - 1 := s.queues[t - 1][1..]]
    ensures next.requests == s.requests + if r.error then [] else Tagged(id, r.messages)
  {
    hide Enabled, Next, Steps, LeftAs, Beside, FeedReturns, SendMessage, Answers, Tagged;
    TakeStep(s, t, id, cfg);
    var u := Next(s, Taken(t), cfg);
    FetchStep(u, t, id, cfg);
    var v := Next(u, Fetched(t), cfg);
    FeedStep(v, t, id, r, cfg);
    var w := Next(v, Fed(t, r), cfg);
    next := Answer(w, t, id, r, ok, cfg);
    TakenBeside(s, u, id);
    BesideSame(u, v, id, u.queues, u.requests);
    ThenBeside(s, u, v, id, u.queues, u.requests);
    var more := s.requests + if r.error then [] else Tagged(id, r.messages);
    ThenBeside(s, v, w, id, v.queues, more);
    BesideSame(s, w, id, v.queues, more);
    NestedSend(w.Conn(id).account, r.text, cfg.capacity, ok);
    ThenLeft(s, w, next, id, Assembled(s.Conn(id).account, r.error, r.text, r.left, cfg.capacity, ok), v.queues, more);
    OneMore(v, Fed(t, r), Answers(t, r, ok), next, cfg);
    OneMore(u, Fetched(t), [Fed(t, r)] + Answers(t, r, ok), next, cfg);
    OneMore(s, Taken(t), [Fetched(t)] + ([Fed(t, r)] + Answers(t, r, ok)), next, cfg);
  }
}
