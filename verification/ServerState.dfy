/** The server of src/networking/TCPServer.h as a transition system. Each step is one of the
    source's locked or atomic pieces; giving up a reference, the test for zero and the termination
    are one step. Operations of the operating system are posted, pend, and complete in any order. */
module ServerState {
  import opened Text
  import opened Http
  import opened Clients
  import opened ClientTables
  import B = BoundedParser

  /** A connected client, with what has passed through it since it connected: messages accepted
      for it, bytes of them that were sent, bytes received and not yet fed, bytes fed, and those of
      them that were fed before a batch that failed. `clean`: its id's parser was in the initial state
      when it connected. `base`: how many requests had been queued for its id by then. */
  datatype Connection = Connection(
    account: Account,
    accepted: string,
    completed: string,
    unread: string,
    fed: string,
    parsed: string,
    clean: bool,
    rejected: bool,
    base: nat)

  /** What belongs to an id whoever holds it: the assembler's state for it, the operations that
      pend for it, and how many clients have had it. `tainted`: a send of its client failed to be posted
      while the client was neither disconnecting nor rejected, or one of an earlier client's did, whose
      id was still stranded when this client connected. */
  datatype Site = Site(parser: B.Machine, receives: nat, sends: seq<string>, tainted: bool, uses: nat)

  const NEW_SITE := Site(B.INITIAL, 0, [], false, 0)

  /** Where a thread is. Every stage but the first holds a reference to the client. */
  datatype Stage =
    | Fetching
    | Feeding
    | Posting
    | Rejecting(text: string)
    | HangingUp
    | Sending(message: string)
    | Dropping

  datatype Task = Task(id: nat, stage: Stage)

  datatype Request = Request(id: nat, message: Message)

  /** Thread 0 is the listener, the next `|queues|` are the workers, the others belong to the
      application. `requests` is everything ever queued, `peak` the most clients ever live. */
  datatype State = State(
    table: Table<Connection>,
    sites: seq<Site>,
    queues: seq<seq<nat>>,
    tasks: seq<Option<Task>>,
    requests: seq<Request>,
    peak: nat)
  {
    predicate Idle(t: nat) {
      t < |tasks| && tasks[t].None?
    }

    predicate IsWorker(t: nat) {
      1 <= t <= |queues|
    }

    /** Thread `t` is with a client that is live. */
    predicate Busy(t: nat) {
      t < |tasks| && tasks[t].Some? && Served(tasks[t].value.id)
    }

    predicate At(t: nat, stage: Stage) {
      Busy(t) && tasks[t].value.stage == stage
    }

    predicate Served(id: nat) {
      table.Live(id) && id < |sites|
    }

    /** The id is in its worker's queue or in the worker's hand. */
    predicate Stranded(id: nat) {
      (|queues| > 0 && id in queues[id % |queues|]) ||
      exists t :: 0 <= t < |tasks| && tasks[t] == Some(Task(id, Fetching))
    }

    function Conn(id: nat): Connection
      requires table.Live(id)
    {
      table.slots[id].value
    }

    function WithTask(t: nat, task: Option<Task>): State
      requires t < |tasks|
    {
      this.(tasks := tasks[t := task])
    }

    function Put(id: nat, after: Local): State
      requires Served(id)
    {
      this.(table := if after.entry.Some? then table.(slots := table.slots[id := after.entry]) else table.Remove(id),
            sites := sites[id := after.site])
    }

    function Push(id: nat): State
      requires |queues| > 0
    {
      this.(queues := queues[id % |queues| := queues[id % |queues|] + [id]])
    }

    function Log(id: nat, messages: seq<Message>): State {
      this.(requests := requests + Tagged(id, messages))
    }
  }

  function Tagged(id: nat, messages: seq<Message>): seq<Request> {
    if messages == [] then [] else [Request(id, messages[0])] + Tagged(id, messages[1..])
  }

  /** The messages queued for `id`. */
  function Of(requests: seq<Request>, id: nat): seq<Message> {
    if requests == [] then []
    else if requests[0].id == id then [requests[0].message] + Of(requests[1..], id)
    else Of(requests[1..], id)
  }

  function Start(workers: nat, threads: nat): State {
    State(Table([], []), [], seq(workers, _ => []), seq(1 + workers + threads, _ => None), [], 0)
  }

  // -------------------------------------------- what a step does to one client

  datatype Local = Local(entry: Option<Connection>, site: Site)

  /** Ends the client if it is disconnecting and nothing refers to it. */
  function Reap(c: Connection): Option<Connection> {
    if Over(c.account) then None else Some(c)
  }

  function AfterPost(c: Connection, site: Site, ok: bool): Local {
    Local(Some(c.(account := PostReceive(c.account, ok))), if ok then site.(receives := site.receives + 1) else site)
  }

  function AfterReceive(c: Connection, site: Site, bytes: string): Local
    requires site.receives > 0
  {
    var d := c.(account := ReceiveCompleted(c.account, |bytes|),
                unread := if Queues(c.account, |bytes|) then c.unread + bytes else c.unread);
    Local(Reap(d), site.(receives := site.receives - 1))
  }

  /** The client is on its way out already: a failed post takes nothing from it. */
  predicate Leaving(c: Connection) {
    c.account.disconnecting || c.rejected
  }

  function SendSite(site: Site, data: string, size: nat, ok: bool, leaving: bool): Site {
    if SendPosted(data, size, ok) then site.(sends := site.sends + [data])
    else site.(tainted := site.tainted || !leaving)
  }

  function AfterSent(c: Connection, site: Site, size: nat, ok: bool): Local
    requires site.sends != [] && c.account.outbound != []
  {
    var rest := site.(sends := site.sends[1..]);
    var next := c.account.outbound[1..];
    var d := c.(account := SendFinished(c.account, size, ok), completed := c.completed + site.sends[0]);
    Local(Reap(d), if next == [] || Over(Release(c.account)) then rest
                   else SendSite(rest, next[0], size, ok, Leaving(c)))
  }

  function AfterSend(c: Connection, site: Site, message: string, size: nat, ok: bool): Local
    requires size > 0
  {
    var d := c.(account := SendMessage(c.account, message, size, ok), accepted := c.accepted + message);
    if c.account.sending || d.account.outbound == [] then Local(Some(d), site)
    else Local(Some(d), SendSite(site, d.account.outbound[0], size, ok, Leaving(c)))
  }

  datatype FeedResult = FeedResult(messages: seq<Message>, error: bool, text: string, parser: B.Machine, left: nat)

  /** The buffer and the parser agree, as `feed` needs. */
  ghost predicate Feedable(c: Connection, site: Site, cfg: B.Config) {
    && cfg.capacity > 0 && B.Ready(site.parser, cfg) && site.parser.phase != B.Error
    && c.account.recvLen == |site.parser.held| + |c.unread| <= cfg.capacity
  }

  /** What `feed` may return: what HttpAssembler.Feed ensures where it may be called, anything
      elsewhere (a parser left behind by an earlier client of the same id). */
  ghost predicate FeedReturns(c: Connection, site: Site, r: FeedResult, cfg: B.Config) {
    Feedable(c, site, cfg) ==>
      var run := B.Run(site.parser, c.unread, cfg);
      && r.messages == run.messages
      && (r.error <==> run.next.phase == B.Error)
      && r.parser == (if r.error then B.INITIAL else run.next)
      && r.left == (if r.error then 0 else |run.next.held|)
  }

  function AfterFeed(c: Connection, site: Site, r: FeedResult): Local {
    Local(Some(c.(account := c.account.(recvLen := r.left), fed := c.fed + c.unread, unread := "",
                  parsed := if r.error then c.parsed else c.fed + c.unread,
                  rejected := c.rejected || r.error)),
          site.(parser := r.parser))
  }

  // ----------------------------------------------------------------- the steps

  datatype Event =
    | Accepted
    | ReceivePosted(t: nat, ok: bool)
    | Dropped(t: nat)
    | ReceiveDone(id: nat, bytes: string)
    | SendDone(id: nat, ok: bool)
    | Requested(t: nat, id: nat, message: string)
    | Sent(t: nat, ok: bool)
    | Taken(t: nat)
    | Fetched(t: nat)
    | Fed(t: nat, result: FeedResult)
    | Rejected(t: nat, ok: bool)
    | HungUp(t: nat)

  ghost predicate Enabled(s: State, e: Event, cfg: B.Config) {
    match e
    case Accepted => s.Idle(0) && Sound(s.table) && |s.sites| == |s.table.slots|
    case ReceivePosted(t, ok) => s.At(t, Posting)
    case Dropped(t) => s.At(t, Dropping)
    case ReceiveDone(id, bytes) =>
      && s.Idle(0) && s.Served(id) && s.sites[id].receives > 0 && |s.queues| > 0
      && s.Conn(id).account.recvLen + |bytes| <= cfg.capacity
    case SendDone(id, ok) =>
      s.Idle(0) && s.Served(id) && s.sites[id].sends != [] && s.Conn(id).account.outbound != []
    case Requested(t, id, message) => s.Idle(t) && t > |s.queues|
    case Sent(t, ok) => s.Busy(t) && s.tasks[t].value.stage.Sending?
    case Taken(t) => s.Idle(t) && s.IsWorker(t) && s.queues[t - 1] != []
    case Fetched(t) => t < |s.tasks| && s.tasks[t].Some? && s.tasks[t].value.stage == Fetching
    case Fed(t, r) =>
      && s.At(t, Feeding)
      && FeedReturns(s.Conn(s.tasks[t].value.id), s.sites[s.tasks[t].value.id], r, cfg)
    case Rejected(t, ok) => s.Busy(t) && s.tasks[t].value.stage.Rejecting?
    case HungUp(t) => s.At(t, HangingUp)
  }

  /** `addClient` as the listener calls it; the listener then has the first receive to post. */
  function Accept(s: State): State
    requires s.Idle(0) && Sound(s.table) && |s.sites| == |s.table.slots|
  {
    var id := s.table.NextId();
    var sites := if s.table.freeIds != [] then s.sites else s.sites + [NEW_SITE];
    assert s.table.freeIds != [] ==> s.table.freeIds[|s.table.freeIds| - 1] in s.table.freeIds;
    var clean := sites[id].parser == B.INITIAL;
    var c := Connection(NEW_ACCOUNT.(refs := 1), "", "", "", "", "", clean, false, |Of(s.requests, id)|);
    var table := s.table.Add(c);
    s.(table := table,
       sites := sites[id := sites[id].(uses := sites[id].uses + 1, tainted := sites[id].tainted && s.Stranded(id))],
       tasks := s.tasks[0 := Some(Task(id, Posting))],
       peak := if CountLive(table.slots) > s.peak then CountLive(table.slots) else s.peak)
  }

  ghost function Next(s: State, e: Event, cfg: B.Config): State
    requires cfg.capacity > 0 && Enabled(s, e, cfg)
  {
    match e
    case Accepted => Accept(s)
    case ReceivePosted(t, ok) =>
      var id := s.tasks[t].value.id;
      s.Put(id, AfterPost(s.Conn(id), s.sites[id], ok)).WithTask(t, Some(Task(id, Dropping)))
    case Dropped(t) =>
      var id := s.tasks[t].value.id;
      var c := s.Conn(id);
      s.Put(id, Local(Reap(c.(account := Release(c.account))), s.sites[id])).WithTask(t, None)
    case ReceiveDone(id, bytes) =>
      var c := s.Conn(id);
      var next := s.Put(id, AfterReceive(c, s.sites[id], bytes));
      if Queues(c.account, |bytes|) then next.Push(id) else next
    case SendDone(id, ok) => s.Put(id, AfterSent(s.Conn(id), s.sites[id], cfg.capacity, ok))
    case Requested(t, id, message) =>
      if s.Served(id) then
        var c := s.Conn(id);
        var after := Local(Some(c.(account := Borrow(c.account))), s.sites[id]);
        s.Put(id, after).WithTask(t, Some(Task(id, Sending(message))))
      else s
    case Sent(t, ok) =>
      var id := s.tasks[t].value.id;
      var after := AfterSend(s.Conn(id), s.sites[id], s.tasks[t].value.stage.message, cfg.capacity, ok);
      s.Put(id, after).WithTask(t, Some(Task(id, Dropping)))
    case Taken(t) =>
      var id := s.queues[t - 1][0];
      s.(queues := s.queues[t - 1 := s.queues[t - 1][1..]]).WithTask(t, Some(Task(id, Fetching)))
    case Fetched(t) =>
      var id := s.tasks[t].value.id;
      if s.Served(id) then
        var c := s.Conn(id);
        s.Put(id, Local(Some(c.(account := Borrow(c.account))), s.sites[id])).WithTask(t, Some(Task(id, Feeding)))
      else s.WithTask(t, None)
    case Fed(t, r) =>
      var id := s.tasks[t].value.id;
      var next := s.Put(id, AfterFeed(s.Conn(id), s.sites[id], r));
      if r.error then next.WithTask(t, Some(Task(id, Rejecting(r.text))))
      else next.Log(id, r.messages).WithTask(t, Some(Task(id, Posting)))
    case Rejected(t, ok) =>
      var id := s.tasks[t].value.id;
      var after := AfterSend(s.Conn(id), s.sites[id], s.tasks[t].value.stage.text, cfg.capacity, ok);
      s.Put(id, after).WithTask(t, Some(Task(id, HangingUp)))
    case HungUp(t) =>
      var id := s.tasks[t].value.id;
      var c := s.Conn(id);
      s.Put(id, Local(Some(c.(account := HangUp(c.account))), s.sites[id])).WithTask(t, Some(Task(id, Dropping)))
  }

  /** A run is any sequence of events; one that cannot happen is skipped. */
  ghost function Run(s: State, events: seq<Event>, cfg: B.Config): State
    requires cfg.capacity > 0
    decreases |events|
  {
    if events == [] then s
    else Run(if Enabled(s, events[0], cfg) then Next(s, events[0], cfg) else s, events[1..], cfg)
  }
}
