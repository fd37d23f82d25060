/** What every run of the server keeps (src/networking/TCPServer.h). */
module ServerSafety {
  import opened Text
  import opened Http
  import opened Clients
  import opened ClientTables
  import opened ServerState
  import P = StreamParser
  import B = BoundedParser

  // --------------------------------------------------- who holds what of a client

  datatype Role = Borrower | Reader | Poster | Closer

  /** `Borrower`: holds a reference. `Reader`: has the client's received bytes to feed.
      `Poster`: is to post its next receive. `Closer`: is to hang up on it. */
  predicate Plays(task: Option<Task>, id: nat, role: Role) {
    task.Some? && task.value.id == id &&
    match role
    case Borrower => !task.value.stage.Fetching?
    case Reader => task.value.stage.Fetching? || task.value.stage.Feeding?
    case Poster => task.value.stage.Posting?
    case Closer => task.value.stage.Rejecting? || task.value.stage.HangingUp?
  }

  function One(task: Option<Task>, id: nat, role: Role): int {
    if Plays(task, id, role) then 1 else 0
  }

  function Tally(tasks: seq<Option<Task>>, id: nat, role: Role): nat {
    if tasks == [] then 0
    else Tally(tasks[..|tasks| - 1], id, role) + One(tasks[|tasks| - 1], id, role)
  }

  lemma {:induction false} TallyUpdate(tasks: seq<Option<Task>>, t: nat, task: Option<Task>, id: nat, role: Role)
    requires t < |tasks|
    ensures Tally(tasks[t := task], id, role) == Tally(tasks, id, role) - One(tasks[t], id, role) + One(task, id, role)
  {
    hide One;
    var last := |tasks| - 1;
    if t < last {
      TallyUpdate(tasks[..last], t, task, id, role);
      assert tasks[t := task][..last] == tasks[..last][t := task];
    } else {
      assert tasks[t := task][..last] == tasks[..last];
    }
  }

  lemma {:induction false} OfAppend(a: seq<Request>, b: seq<Request>, id: nat)
    ensures Of(a + b, id) == Of(a, id) + Of(b, id)
  {
    if a == [] {
      assert a + b == b;
    } else {
      OfAppend(a[1..], b, id);
      assert (a + b)[1..] == a[1..] + b && (a + b)[0] == a[0];
      assert ([a[0].message] + Of(a[1..], id)) + Of(b, id) == [a[0].message] + (Of(a[1..], id) + Of(b, id));
    }
  }

  lemma {:induction false} OfTagged(id: nat, messages: seq<Message>, j: nat)
    ensures Of(Tagged(id, messages), j) == if j == id then messages else []
  {
    if messages != [] {
      OfTagged(id, messages[1..], j);
      assert Tagged(id, messages)[1..] == Tagged(id, messages[1..]);
    }
  }

  lemma {:induction false} OfStranger(requests: seq<Request>, id: nat)
    requires forall k :: 0 <= k < |requests| ==> requests[k].id != id
    ensures Of(requests, id) == []
  {
    if requests != [] {
      OfStranger(requests[1..], id);
    }
  }

  /** Everything the server knows of one id. `waiting`: bytes received for it that are queued for
      its worker or held by it. `posting`, `closing`: threads about to post its receive or hang up. */
  datatype View = View(
    entry: Option<Connection>,
    site: Site,
    borrowers: int,
    waiting: int,
    posting: int,
    closing: int,
    requests: seq<Message>)

  function ViewOf(s: State, id: nat): View
    requires id < |s.table.slots| && id < |s.sites| && |s.queues| > 0
  {
    View(s.table.slots[id], s.sites[id], Tally(s.tasks, id, Borrower),
         multiset(s.queues[id % |s.queues|])[id] + Tally(s.tasks, id, Reader), Tally(s.tasks, id, Poster),
         Tally(s.tasks, id, Closer), Of(s.requests, id))
  }

  // ------------------------------------------------------- what holds of one id

  /** The reference count is exactly the pending operations and the borrowers, and a client that
      is disconnecting does not rest without references. */
  predicate Referenced(c: Connection, v: View) {
    && c.account.refs == v.site.receives + |v.site.sends| + v.borrowers
    && (c.account.disconnecting ==> c.account.refs > 0)
  }

  /** What was sent and what is queued is what was accepted; the only send that can be pending is
      of the front of the queue; unless the client is disconnecting one is pending whenever
      something is queued. */
  predicate Delivered(c: Connection, site: Site, size: nat) {
    && c.completed + Concat(c.account.outbound) == c.accepted
    && (forall k :: 0 <= k < |c.account.outbound| ==> |c.account.outbound[k]| <= size)
    && (site.sends == [] || (c.account.outbound != [] && site.sends == [c.account.outbound[0]]))
    && (site.sends != [] ==> c.account.sending)
    && (!c.account.disconnecting ==>
          (c.account.sending <==> site.sends != []) && (c.account.outbound == [] <==> site.sends == []))
  }

  /** The receive buffer has one owner: a pending receive, the queue or worker, or the thread about
      to post. A client that is leaving or gone has none; one that is rejected and not disconnecting
      yet has one thread about to hang up on it. */
  predicate Owned(v: View) {
    !v.site.tainted ==>
      && v.site.receives + v.waiting + v.posting == (if v.entry.Some? && !Leaving(v.entry.value) then 1 else 0)
      && (v.entry.Some? && !v.entry.value.account.disconnecting ==>
            v.closing == if v.entry.value.rejected then 1 else 0)
  }

  /** The requests queued for this client are the parse of what it was fed, and the parser holds
      what is left of that. It is rejected when that parse fails; the requests are then the parse of
      what it was fed before. */
  ghost predicate InOrder(c: Connection, v: View, cfg: B.Config) {
    !v.site.tainted && c.clean ==>
      && c.base <= |v.requests| && B.Ready(B.INITIAL, cfg)
      && (v.waiting == 0 ==> c.unread == "")
      && B.Run(B.INITIAL, c.parsed, cfg).messages == v.requests[c.base..]
      && if c.rejected then
           c.parsed <= c.fed && B.Run(B.INITIAL, c.fed, cfg).next.phase == B.Error
           && B.Run(B.INITIAL, c.parsed, cfg).next.phase != B.Error
         else
           c.parsed == c.fed && B.Run(B.INITIAL, c.fed, cfg).next == v.site.parser && Feedable(c, v.site, cfg)
  }

  /** Nothing of an earlier client is mixed into what the first client of an id gets. */
  predicate Fresh(v: View) {
    && (v.site.uses == 0 ==> v.entry.None? && v.site.parser == B.INITIAL && v.requests == [])
    && (v.site.uses == 1 && v.entry.Some? ==> v.entry.value.clean && v.entry.value.base == 0)
  }

  ghost predicate Ok(v: View, cfg: B.Config) {
    && Owned(v) && Fresh(v) && v.waiting >= 0 && v.posting >= 0 && v.closing >= 0
    && v.posting + v.closing <= v.borrowers
    && match v.entry
       case None => v.site.receives == 0 && v.site.sends == [] && v.borrowers == 0
       case Some(c) => Referenced(c, v) && Delivered(c, v.site, cfg.capacity) && InOrder(c, v, cfg)
  }

  // ---------------------------------------------------- each step, for its client

  /** `v` after one thread went from task `from` to task `to` and left the client as `after`. */
  function Turned(v: View, id: nat, after: Local, from: Option<Task>, to: Option<Task>): View {
    v.(entry := after.entry, site := after.site,
       borrowers := v.borrowers - One(from, id, Borrower) + One(to, id, Borrower),
       waiting := v.waiting - One(from, id, Reader) + One(to, id, Reader),
       posting := v.posting - One(from, id, Poster) + One(to, id, Poster),
       closing := v.closing - One(from, id, Closer) + One(to, id, Closer))
  }

  /** Between feeds the buffer has room for another byte. */
  lemma ReadyRoom(m: B.Machine, cfg: B.Config)
    requires B.Ready(m, cfg) && m.phase != B.Error
    ensures |m.held| < cfg.capacity
  {
  }

  lemma PostKeeps(v: View, ok: bool, cfg: B.Config)
    requires Ok(v, cfg) && v.entry.Some? && v.borrowers > 0 && v.posting > 0
    ensures var after := AfterPost(v.entry.value, v.site, ok);
            Ok(v.(entry := after.entry, site := after.site, posting := v.posting - 1), cfg)
  {
    hide B.Run, B.Ready, Concat;
  }

  lemma DropKeeps(v: View, cfg: B.Config)
    requires Ok(v, cfg) && v.entry.Some? && v.posting + v.closing < v.borrowers
    ensures var c := v.entry.value;
            Ok(v.(entry := Reap(c.(account := Release(c.account))), borrowers := v.borrowers - 1), cfg)
  {
    hide B.Run, B.Ready, Concat;
  }

  lemma BorrowKeeps(v: View, cfg: B.Config)
    requires Ok(v, cfg) && v.entry.Some?
    ensures var c := v.entry.value;
            Ok(v.(entry := Some(c.(account := Borrow(c.account))), borrowers := v.borrowers + 1), cfg)
  {
    hide B.Run, B.Ready, Concat;
  }

  lemma HangUpKeeps(v: View, cfg: B.Config)
    requires Ok(v, cfg) && v.entry.Some? && v.borrowers > 0 && v.closing > 0
    ensures var c := v.entry.value;
            Ok(v.(entry := Some(c.(account := HangUp(c.account))), closing := v.closing - 1), cfg)
  {
    hide B.Run, B.Ready, Concat;
  }

  lemma ReceiveKeeps(v: View, bytes: string, cfg: B.Config)
    requires Ok(v, cfg) && v.entry.Some? && v.site.receives > 0
    requires v.entry.value.account.recvLen + |bytes| <= cfg.capacity
    ensures var c := v.entry.value;
            var after := AfterReceive(c, v.site, bytes);
            Ok(v.(entry := after.entry, site := after.site,
                  waiting := v.waiting + if Queues(c.account, |bytes|) then 1 else 0), cfg)
  {
    hide B.Run, B.Ready, Concat;
  }

  lemma SendKeeps(v: View, message: string, ok: bool, cfg: B.Config)
    requires Ok(v, cfg) && v.entry.Some? && v.borrowers > 0 && cfg.capacity > 0
    ensures var after := AfterSend(v.entry.value, v.site, message, cfg.capacity, ok);
            Ok(v.(entry := after.entry, site := after.site), cfg)
  {
    hide B.Run, B.Ready, Concat, Chunks;
    var a := v.entry.value.account;
    ChunksWhole(message, cfg.capacity);
    ConcatAppend(a.outbound, Chunks(message, cfg.capacity));
    assert (v.entry.value.completed + Concat(a.outbound)) + message
        == v.entry.value.completed + (Concat(a.outbound) + message);
  }

  lemma SentConcat(completed: string, outbound: seq<string>)
    requires outbound != []
    ensures (completed + outbound[0]) + Concat(outbound[1..]) == completed + Concat(outbound)
  {
  }

  /** The chunk that was sent leaves the queue and joins what is completed. */
  lemma SentDelivered(c: Connection, site: Site, size: nat, ok: bool)
    requires Delivered(c, site, size) && site.sends != []
    ensures c.account.outbound != [] && |site.sends| == 1
    ensures var after := AfterSent(c, site, size, ok);
            after.entry.Some? ==> Delivered(after.entry.value, after.site, size)
  {
    hide Concat;
    SentConcat(c.completed, c.account.outbound);
  }

  lemma SentKeeps(v: View, ok: bool, cfg: B.Config)
    requires Ok(v, cfg) && v.entry.Some? && v.site.sends != []
    ensures v.entry.value.account.outbound != []
    ensures var after := AfterSent(v.entry.value, v.site, cfg.capacity, ok);
            Ok(v.(entry := after.entry, site := after.site), cfg)
  {
    hide B.Run, B.Ready, Delivered;
    SentDelivered(v.entry.value, v.site, cfg.capacity, ok);
  }

  lemma FeedKeeps(v: View, r: FeedResult, cfg: B.Config)
    requires Ok(v, cfg) && v.entry.Some? && v.waiting > 0 && v.posting + v.closing < v.borrowers
    requires FeedReturns(v.entry.value, v.site, r, cfg)
    ensures var after := AfterFeed(v.entry.value, v.site, r);
            Ok(v.(entry := after.entry, site := after.site, waiting := v.waiting - 1,
                  posting := v.posting + (if r.error then 0 else 1), closing := v.closing + (if r.error then 1 else 0),
                  requests := v.requests + if r.error then [] else r.messages), cfg)
  {
    hide B.Run, B.Ready, Concat;
    var c := v.entry.value;
    if !v.site.tainted && c.clean && !c.rejected {
      B.RunAppend(B.INITIAL, c.fed, c.unread, cfg);
      if !r.error {
        ReadyRoom(r.parser, cfg);
      }
      assert (v.requests + r.messages)[c.base..] == v.requests[c.base..] + r.messages;
    }
  }

  // --------------------------------------------------------- what holds of the whole

  /** The table is in order and as long as the most clients that were ever live at once. */
  predicate Shaped(s: State) {
    && Sound(s.table) && Counted(s.table)
    && s.peak == |s.table.slots| == |s.sites|
    && 0 < |s.queues| < |s.tasks|
    && (forall k :: 0 <= k < |s.requests| ==> s.requests[k].id < |s.sites|)
  }

  /** A client's bytes are only ever with the worker its id selects. */
  predicate Routed(queues: seq<seq<nat>>, tasks: seq<Option<Task>>, sites: nat) {
    && (forall q, k :: 0 <= q < |queues| && 0 <= k < |queues[q]| ==>
          queues[q][k] < sites && queues[q][k] % |queues| == q)
    && (forall t :: 0 <= t < |tasks| && tasks[t].Some? ==> Posted(tasks[t].value, t, |queues|, sites))
  }

  predicate Posted(task: Task, t: nat, workers: nat, sites: nat) {
    && task.id < sites
    && (task.stage.Fetching? || task.stage.Feeding? ==> workers > 0 && 1 <= t <= workers && task.id % workers == t - 1)
  }

  ghost predicate Inv(s: State, cfg: B.Config) {
    && cfg.capacity > 0 && Shaped(s) && Routed(s.queues, s.tasks, |s.sites|)
    && forall id: nat :: id < |s.table.slots| ==> Ok(ViewOf(s, id), cfg)
  }

  lemma PutShape(s: State, id: nat, after: Local)
    requires Shaped(s) && s.Served(id)
    ensures Shaped(s.Put(id, after))
  {
    if after.entry.Some? {
      CountLiveUpdate(s.table.slots, id, after.entry);
      StoreSound(s.table, id, after.entry.value);
    } else {
      CountLiveUpdate(s.table.slots, id, None);
      RemoveSound(s.table, id);
    }
  }

  lemma PutView(s: State, id: nat, after: Local, j: nat)
    requires Shaped(s) && s.Served(id) && j < |s.table.slots|
    ensures |s.Put(id, after).table.slots| == |s.table.slots| == |s.Put(id, after).sites|
    ensures ViewOf(s.Put(id, after), j)
            == if j == id then ViewOf(s, id).(entry := after.entry, site := after.site) else ViewOf(s, j)
  {
    hide Tally, Of, Sound, Counted;
  }

  lemma TaskView(s: State, t: nat, task: Option<Task>, j: nat)
    requires Shaped(s) && t < |s.tasks| && j < |s.table.slots|
    ensures ViewOf(s.WithTask(t, task), j)
            == Turned(ViewOf(s, j), j, Local(s.table.slots[j], s.sites[j]), s.tasks[t], task)
  {
    hide Of, One;
    TallyUpdate(s.tasks, t, task, j, Borrower);
    TallyUpdate(s.tasks, t, task, j, Reader);
    TallyUpdate(s.tasks, t, task, j, Poster);
    TallyUpdate(s.tasks, t, task, j, Closer);
  }

  /** A thread that goes on to another task changes what holds only of the client it is with. */
  lemma TurnKeeps(s: State, id: nat, after: Local, t: nat, task: Option<Task>, cfg: B.Config)
    requires Inv(s, cfg) && s.Served(id) && t < |s.tasks|
    requires s.tasks[t].Some? ==> s.tasks[t].value.id == id
    requires task.Some? ==> task.value.id == id && Posted(task.value, t, |s.queues|, |s.sites|)
    requires Ok(Turned(ViewOf(s, id), id, after, s.tasks[t], task), cfg)
    ensures Inv(s.Put(id, after).WithTask(t, task), cfg)
  {
    hide Ok, Tally, Of, Sound, Counted;
    var u := s.Put(id, after);
    PutShape(s, id, after);
    forall j: nat | j < |s.table.slots|
      ensures Ok(ViewOf(u.WithTask(t, task), j), cfg)
    {
      PutView(s, id, after, j);
      TaskView(u, t, task, j);
    }
  }

  lemma Present(s: State, t: nat, id: nat, role: Role)
    requires t < |s.tasks|
    ensures Tally(s.tasks, id, role) >= One(s.tasks[t], id, role)
  {
    TallyUpdate(s.tasks, t, None, id, role);
  }

  /** Posters and closers hold references; a thread that is neither holds another one. */
  lemma {:induction false} PostersBorrow(tasks: seq<Option<Task>>, id: nat)
    ensures Tally(tasks, id, Poster) + Tally(tasks, id, Closer) <= Tally(tasks, id, Borrower)
  {
    if tasks != [] {
      PostersBorrow(tasks[..|tasks| - 1], id);
    }
  }

  lemma OtherBorrower(s: State, t: nat, id: nat)
    requires s.At(t, Dropping) || s.At(t, Feeding)
    requires s.tasks[t].value.id == id
    ensures Tally(s.tasks, id, Poster) + Tally(s.tasks, id, Closer) < Tally(s.tasks, id, Borrower)
  {
    var rest := s.tasks[t := None];
    TallyUpdate(s.tasks, t, None, id, Borrower);
    TallyUpdate(s.tasks, t, None, id, Poster);
    TallyUpdate(s.tasks, t, None, id, Closer);
    PostersBorrow(rest, id);
  }

  lemma ReceivePostedKeeps(s: State, t: nat, ok: bool, cfg: B.Config)
    requires Inv(s, cfg) && s.At(t, Posting)
    ensures Inv(Next(s, ReceivePosted(t, ok), cfg), cfg)
  {
    hide Ok, Tally, Of, Sound, Counted;
    var id := s.tasks[t].value.id;
    Present(s, t, id, Borrower);
    Present(s, t, id, Poster);
    PostKeeps(ViewOf(s, id), ok, cfg);
    TurnKeeps(s, id, AfterPost(s.Conn(id), s.sites[id], ok), t, Some(Task(id, Dropping)), cfg);
  }

  lemma DroppedKeeps(s: State, t: nat, cfg: B.Config)
    requires Inv(s, cfg) && s.At(t, Dropping)
    ensures Inv(Next(s, Dropped(t), cfg), cfg)
  {
    hide Ok, Tally, Of, Sound, Counted;
    var id := s.tasks[t].value.id;
    var c := s.Conn(id);
    OtherBorrower(s, t, id);
    DropKeeps(ViewOf(s, id), cfg);
    TurnKeeps(s, id, Local(Reap(c.(account := Release(c.account))), s.sites[id]), t, None, cfg);
  }

  lemma RequestedKeeps(s: State, t: nat, id: nat, message: string, cfg: B.Config)
    requires Inv(s, cfg) && s.Idle(t) && t > |s.queues|
    ensures Inv(Next(s, Requested(t, id, message), cfg), cfg)
  {
    hide Ok, Tally, Of, Sound, Counted;
    if s.Served(id) {
      var c := s.Conn(id);
      BorrowKeeps(ViewOf(s, id), cfg);
      var after := Local(Some(c.(account := Borrow(c.account))), s.sites[id]);
      TurnKeeps(s, id, after, t, Some(Task(id, Sending(message))), cfg);
    }
  }

  lemma SentKeepsAll(s: State, t: nat, message: string, next: Stage, ok: bool, cfg: B.Config)
    requires Inv(s, cfg) && t < |s.tasks|
    requires (s.At(t, Sending(message)) && next == Dropping) || (s.At(t, Rejecting(message)) && next == HangingUp)
    ensures var id := s.tasks[t].value.id;
            var after := AfterSend(s.Conn(id), s.sites[id], message, cfg.capacity, ok);
            Inv(s.Put(id, after).WithTask(t, Some(Task(id, next))), cfg)
  {
    hide Ok, Tally, Of, Sound, Counted, AfterSend;
    var id := s.tasks[t].value.id;
    var after := AfterSend(s.Conn(id), s.sites[id], message, cfg.capacity, ok);
    Present(s, t, id, Borrower);
    SendKeeps(ViewOf(s, id), message, ok, cfg);
    TurnKeeps(s, id, after, t, Some(Task(id, next)), cfg);
  }

  lemma FetchedKeeps(s: State, t: nat, cfg: B.Config)
    requires Inv(s, cfg) && t < |s.tasks| && s.tasks[t].Some? && s.tasks[t].value.stage == Fetching
    ensures Inv(Next(s, Fetched(t), cfg), cfg)
  {
    hide Ok, Tally, Of, Sound, Counted;
    var id := s.tasks[t].value.id;
    if s.Served(id) {
      var c := s.Conn(id);
      BorrowKeeps(ViewOf(s, id), cfg);
      TurnKeeps(s, id, Local(Some(c.(account := Borrow(c.account))), s.sites[id]), t, Some(Task(id, Feeding)), cfg);
    } else {
      StaleKeeps(s, t, cfg);
    }
  }

  lemma HungUpKeeps(s: State, t: nat, cfg: B.Config)
    requires Inv(s, cfg) && s.At(t, HangingUp)
    ensures Inv(Next(s, HungUp(t), cfg), cfg)
  {
    hide Ok, Tally, Of, Sound, Counted;
    var id := s.tasks[t].value.id;
    var c := s.Conn(id);
    Present(s, t, id, Borrower);
    Present(s, t, id, Closer);
    HangUpKeeps(ViewOf(s, id), cfg);
    TurnKeeps(s, id, Local(Some(c.(account := HangUp(c.account))), s.sites[id]), t, Some(Task(id, Dropping)), cfg);
  }

  /** The worker finds that the client it was to feed is gone. */
  lemma StaleKeeps(s: State, t: nat, cfg: B.Config)
    requires Inv(s, cfg) && t < |s.tasks| && s.tasks[t].Some? && s.tasks[t].value.stage == Fetching
    requires !s.Served(s.tasks[t].value.id)
    ensures Inv(s.WithTask(t, None), cfg)
  {
    hide Tally, Of, Sound, Counted, Referenced, Delivered, InOrder;
    var id := s.tasks[t].value.id;
    Present(s, t, id, Reader);
    forall j: nat | j < |s.table.slots|
      ensures Ok(ViewOf(s.WithTask(t, None), j), cfg)
    {
      TaskView(s, t, None, j);
      Queued(s, j);
    }
  }

  lemma Queued(s: State, j: nat)
    requires Shaped(s) && j < |s.table.slots|
    ensures ViewOf(s, j).waiting >= Tally(s.tasks, j, Reader) >= 0
  {
  }

  // ------------------------------------------------- the listener's completions

  lemma PutKeeps(s: State, id: nat, after: Local, cfg: B.Config)
    requires Inv(s, cfg) && s.Served(id)
    requires Ok(ViewOf(s, id).(entry := after.entry, site := after.site), cfg)
    ensures Inv(s.Put(id, after), cfg)
  {
    hide Ok, Tally, Of, Sound, Counted;
    PutShape(s, id, after);
    forall j: nat | j < |s.table.slots|
      ensures Ok(ViewOf(s.Put(id, after), j), cfg)
    {
      PutView(s, id, after, j);
    }
  }

  lemma SendDoneKeeps(s: State, id: nat, ok: bool, cfg: B.Config)
    requires Inv(s, cfg) && s.Served(id) && s.sites[id].sends != []
    ensures s.Conn(id).account.outbound != []
    ensures Inv(s.Put(id, AfterSent(s.Conn(id), s.sites[id], cfg.capacity, ok)), cfg)
  {
    hide Ok, Tally, Of, Sound, Counted, AfterSent;
    SentKeeps(ViewOf(s, id), ok, cfg);
    PutKeeps(s, id, AfterSent(s.Conn(id), s.sites[id], cfg.capacity, ok), cfg);
  }

  lemma PushView(s: State, id: nat, j: nat)
    requires Shaped(s) && id < |s.table.slots| && j < |s.table.slots|
    ensures ViewOf(s.Push(id), j) == ViewOf(s, j).(waiting := ViewOf(s, j).waiting + if j == id then 1 else 0)
  {
    hide Tally, Of, Sound, Counted;
    var q := id % |s.queues|;
    assert s.Push(id).queues[q] == s.queues[q] + [id];
  }

  lemma PushRouted(s: State, id: nat)
    requires Shaped(s) && id < |s.table.slots| && Routed(s.queues, s.tasks, |s.sites|)
    ensures Routed(s.Push(id).queues, s.tasks, |s.sites|)
  {
    hide Sound, Counted, Posted;
  }

  lemma ReceiveDoneKeeps(s: State, id: nat, bytes: string, cfg: B.Config)
    requires Inv(s, cfg) && Enabled(s, ReceiveDone(id, bytes), cfg)
    ensures Inv(Next(s, ReceiveDone(id, bytes), cfg), cfg)
  {
    hide Ok, Tally, Of, Sound, Counted, AfterReceive;
    var c := s.Conn(id);
    var after := AfterReceive(c, s.sites[id], bytes);
    var u := s.Put(id, after);
    ReceiveKeeps(ViewOf(s, id), bytes, cfg);
    if Queues(c.account, |bytes|) {
      PutShape(s, id, after);
      PushRouted(u, id);
      forall j: nat | j < |s.table.slots|
        ensures Ok(ViewOf(u.Push(id), j), cfg)
      {
        PutView(s, id, after, j);
        PushView(u, id, j);
      }
    } else {
      PutKeeps(s, id, after, cfg);
    }
  }

  // --------------------------------------------------------------- the workers

  /** The state after a worker took the first id of its queue. */
  function Popped(s: State, t: nat): State
    requires s.IsWorker(t) && s.queues[t - 1] != []
  {
    s.(queues := s.queues[t - 1 := s.queues[t - 1][1..]])
  }

  lemma PopView(s: State, t: nat, j: nat)
    requires Shaped(s) && Routed(s.queues, s.tasks, |s.sites|) && s.IsWorker(t) && s.queues[t - 1] != []
    requires j < |s.table.slots|
    ensures s.queues[t - 1][0] < |s.sites| && s.queues[t - 1][0] % |s.queues| == t - 1
    ensures ViewOf(Popped(s, t), j)
            == ViewOf(s, j).(waiting := ViewOf(s, j).waiting - if j == s.queues[t - 1][0] then 1 else 0)
    ensures ViewOf(s, j).entry == s.table.slots[j] && ViewOf(s, j).site == s.sites[j]
  {
    hide Of, Sound, Counted, Tally, Posted;
    var queue := s.queues[t - 1];
    assert queue == [queue[0]] + queue[1..];
  }

  lemma TakenView(s: State, t: nat, j: nat, cfg: B.Config)
    requires Inv(s, cfg) && Enabled(s, Taken(t), cfg) && j < |s.table.slots|
    ensures ViewOf(Next(s, Taken(t), cfg), j) == ViewOf(s, j)
  {
    hide Ok, Of, Sound, Counted, Tally, One, Routed, ViewOf;
    var id := s.queues[t - 1][0];
    PopView(s, t, j);
    TaskView(Popped(s, t), t, Some(Task(id, Fetching)), j);
    OneTaken(id, j);
  }

  lemma OneTaken(id: nat, j: nat)
    ensures One(Some(Task(id, Fetching)), j, Borrower) == 0
    ensures One(Some(Task(id, Fetching)), j, Poster) == One(Some(Task(id, Fetching)), j, Closer) == 0
    ensures One(Some(Task(id, Fetching)), j, Reader) == if j == id then 1 else 0
    ensures forall role :: One(None, j, role) == 0
  {
  }

  lemma TakenKeeps(s: State, t: nat, cfg: B.Config)
    requires Inv(s, cfg) && Enabled(s, Taken(t), cfg)
    ensures Inv(Next(s, Taken(t), cfg), cfg)
  {
    hide Ok, Of, Sound, Counted, Tally;
    var u := Next(s, Taken(t), cfg);
    assert s.queues[t - 1][0] < |s.sites| && s.queues[t - 1][0] % |s.queues| == t - 1;
    assert Routed(u.queues, u.tasks, |u.sites|);
    forall j: nat | j < |s.table.slots|
      ensures Ok(ViewOf(u, j), cfg)
    {
      TakenView(s, t, j, cfg);
    }
  }

  lemma LogView(s: State, id: nat, messages: seq<Message>, j: nat)
    requires Shaped(s) && id < |s.table.slots| && j < |s.table.slots|
    ensures ViewOf(s.Log(id, messages), j)
            == ViewOf(s, j).(requests := ViewOf(s, j).requests + if j == id then messages else [])
  {
    hide Tally, Sound, Counted, Of, Tagged;
    OfAppend(s.requests, Tagged(id, messages), j);
    OfTagged(id, messages, j);
  }

  lemma {:induction false} TaggedIds(id: nat, messages: seq<Message>)
    ensures forall k :: 0 <= k < |Tagged(id, messages)| ==> Tagged(id, messages)[k].id == id
  {
    if messages != [] {
      TaggedIds(id, messages[1..]);
    }
  }

  /** What a fed client's state becomes, in one formula for both outcomes. */
  lemma FedAs(s: State, t: nat, r: FeedResult, cfg: B.Config)
    requires Inv(s, cfg) && Enabled(s, Fed(t, r), cfg)
    ensures var id := s.tasks[t].value.id;
            Next(s, Fed(t, r), cfg)
            == s.Put(id, AfterFeed(s.Conn(id), s.sites[id], r)).Log(id, if r.error then [] else r.messages)
                .WithTask(t, Some(Task(id, if r.error then Rejecting(r.text) else Posting)))
  {
    hide Inv, Sound, Counted, FeedReturns;
    assert s.requests + [] == s.requests;
  }

  lemma FedTurn(v: View, id: nat, j: nat, next: Stage)
    requires next.Posting? || next.Rejecting?
    ensures var turned := Turned(v, j, Local(v.entry, v.site), Some(Task(id, Feeding)), Some(Task(id, next)));
            turned == if j == id then
                        v.(waiting := v.waiting - 1,
                           posting := v.posting + (if next.Posting? then 1 else 0),
                           closing := v.closing + (if next.Posting? then 0 else 1))
                      else v
  {
  }

  lemma FedView(s: State, t: nat, r: FeedResult, j: nat, cfg: B.Config)
    requires Inv(s, cfg) && Enabled(s, Fed(t, r), cfg) && j < |s.table.slots|
    ensures var id := s.tasks[t].value.id;
            var after := AfterFeed(s.Conn(id), s.sites[id], r);
            var v := ViewOf(s, j);
            ViewOf(Next(s, Fed(t, r), cfg), j)
            == if j == id then v.(entry := after.entry, site := after.site, waiting := v.waiting - 1,
                                  posting := v.posting + (if r.error then 0 else 1),
                                  closing := v.closing + (if r.error then 1 else 0),
                                  requests := v.requests + if r.error then [] else r.messages)
               else v
  {
    hide Ok, Tally, Of, Sound, Counted, FeedReturns, AfterFeed, Next, One, Turned;
    var id := s.tasks[t].value.id;
    var after := AfterFeed(s.Conn(id), s.sites[id], r);
    var messages := if r.error then [] else r.messages;
    FedAs(s, t, r, cfg);
    PutShape(s, id, after);
    PutView(s, id, after, j);
    LogShape(s.Put(id, after), id, messages);
    LogView(s.Put(id, after), id, messages, j);
    var u := s.Put(id, after).Log(id, messages);
    var next := if r.error then Rejecting(r.text) else Posting;
    TaskView(u, t, Some(Task(id, next)), j);
    FedTurn(ViewOf(u, j), id, j, next);
  }

  lemma LogShape(s: State, id: nat, messages: seq<Message>)
    requires Shaped(s) && id < |s.sites|
    ensures Shaped(s.Log(id, messages))
  {
    hide Sound, Counted;
    TaggedIds(id, messages);
  }

  lemma FedKeeps(s: State, t: nat, r: FeedResult, cfg: B.Config)
    requires Inv(s, cfg) && Enabled(s, Fed(t, r), cfg)
    ensures Inv(Next(s, Fed(t, r), cfg), cfg)
  {
    hide Ok, Tally, Of, Sound, Counted, FeedReturns, AfterFeed, Next, Tagged;
    var id := s.tasks[t].value.id;
    var after := AfterFeed(s.Conn(id), s.sites[id], r);
    Present(s, t, id, Reader);
    Queued(s, id);
    OtherBorrower(s, t, id);
    FeedKeeps(ViewOf(s, id), r, cfg);
    FedAs(s, t, r, cfg);
    PutShape(s, id, after);
    LogShape(s.Put(id, after), id, if r.error then [] else r.messages);
    forall j: nat | j < |s.table.slots|
      ensures Ok(ViewOf(Next(s, Fed(t, r), cfg), j), cfg)
    {
      FedView(s, t, r, j, cfg);
    }
  }

  // ------------------------------------------------------------ a new connection

  lemma {:induction false} TallyStranger(tasks: seq<Option<Task>>, id: nat, role: Role)
    requires forall t :: 0 <= t < |tasks| && tasks[t].Some? ==> tasks[t].value.id != id
    ensures Tally(tasks, id, role) == 0
  {
    if tasks != [] {
      TallyStranger(tasks[..|tasks| - 1], id, role);
    }
  }

  /** The state with an empty slot for the next client, as `addClient` makes one if none is free. */
  function Grown(s: State): State {
    if s.table.freeIds != [] then s
    else s.(table := Table(s.table.slots + [None], [|s.table.slots|]), sites := s.sites + [NEW_SITE])
  }

  lemma GrownView(s: State, j: nat)
    requires Shaped(s) && Routed(s.queues, s.tasks, |s.sites|) && j < |Grown(s).table.slots|
    ensures |Grown(s).sites| == |Grown(s).table.slots|
    ensures ViewOf(Grown(s), j) == if j < |s.table.slots| then ViewOf(s, j) else View(None, NEW_SITE, 0, 0, 0, 0, [])
  {
    hide Sound, Counted, Tally, Of;
    if j == |s.table.slots| {
      TallyStranger(s.tasks, j, Borrower);
      TallyStranger(s.tasks, j, Reader);
      TallyStranger(s.tasks, j, Poster);
      TallyStranger(s.tasks, j, Closer);
      OfStranger(s.requests, j);
      assert j !in s.queues[j % |s.queues|];
    }
  }

  /** The client that `Accept` adds. */
  function Newcomer(v: View): Connection {
    Connection(NEW_ACCOUNT.(refs := 1), "", "", "", "", "", v.site.parser == B.INITIAL, false, |v.requests|)
  }

  /** The mark of an earlier client goes unless its id is stranded. */
  function NewcomerSite(v: View, stranded: bool): Site {
    v.site.(uses := v.site.uses + 1, tainted := v.site.tainted && stranded)
  }

  lemma AcceptView(s: State, j: nat)
    requires Shaped(s) && Routed(s.queues, s.tasks, |s.sites|) && s.Idle(0)
    requires j < |Grown(s).table.slots|
    ensures |Accept(s).table.slots| == |Grown(s).table.slots| == |Grown(s).sites| == |Accept(s).sites|
    ensures var v := ViewOf(Grown(s), j);
            ViewOf(Accept(s), j)
            == if j == s.table.NextId() then
                 v.(entry := Some(Newcomer(v)), site := NewcomerSite(v, s.Stranded(j)),
                    borrowers := v.borrowers + 1, posting := v.posting + 1)
               else v
  {
    hide Counted, Tally, Of;
    var id := s.table.NextId();
    var task := Some(Task(id, Posting));
    AddSound(s.table, Newcomer(View(None, NEW_SITE, 0, 0, 0, 0, [])));
    TallyUpdate(s.tasks, 0, task, j, Borrower);
    TallyUpdate(s.tasks, 0, task, j, Reader);
    TallyUpdate(s.tasks, 0, task, j, Poster);
    TallyUpdate(s.tasks, 0, task, j, Closer);
  }

  /** If the id is not stranded, nobody has bytes of it. */
  lemma NotStranded(s: State, id: nat, cfg: B.Config)
    requires id < |s.table.slots| && id < |s.sites| && |s.queues| > 0 && s.table.slots[id].None?
    requires Ok(ViewOf(s, id), cfg) && !s.Stranded(id)
    ensures ViewOf(s, id).waiting == 0
  {
    hide Owned, Fresh;
    NoReaders(s.tasks, id);
  }

  /** Without borrowers and without a thread that fetches, there is no reader. */
  lemma {:induction false} NoReaders(tasks: seq<Option<Task>>, id: nat)
    requires Tally(tasks, id, Borrower) == 0
    requires forall t :: 0 <= t < |tasks| ==> tasks[t] != Some(Task(id, Fetching))
    ensures Tally(tasks, id, Reader) == 0
  {
    if tasks != [] {
      NoReaders(tasks[..|tasks| - 1], id);
    }
  }

  /** A connection starts with one reference, the listener's, who is to post its first receive. */
  lemma NewcomerKeeps(v: View, stranded: bool, cfg: B.Config)
    requires Ok(v, cfg) && v.entry.None? && cfg.capacity > 0 && (!stranded ==> v.waiting == 0)
    ensures Ok(v.(entry := Some(Newcomer(v)), site := NewcomerSite(v, stranded),
                  borrowers := v.borrowers + 1, posting := v.posting + 1), cfg)
  {
    B.InitialReady(cfg);
    assert v.requests[|v.requests|..] == [];
  }

  lemma NewSiteOk(cfg: B.Config)
    ensures Ok(View(None, NEW_SITE, 0, 0, 0, 0, []), cfg)
  {
    hide Referenced, Delivered, InOrder;
  }

  lemma AcceptShape(s: State)
    requires Shaped(s) && Routed(s.queues, s.tasks, |s.sites|) && s.Idle(0)
    ensures Shaped(Accept(s))
  {
    hide Of, Routed;
    var c := Accept(s).table.slots[s.table.NextId()].value;
    AddSound(s.table, c);
    ApplyCounted(s.table, Connected(c));
  }

  lemma AcceptRouted(s: State)
    requires Shaped(s) && Routed(s.queues, s.tasks, |s.sites|) && s.Idle(0)
    ensures Routed(Accept(s).queues, Accept(s).tasks, |Accept(s).sites|)
  {
    hide Of, Counted;
    AddSound(s.table, Newcomer(View(None, NEW_SITE, 0, 0, 0, 0, [])));
  }

  lemma AcceptSlot(s: State)
    requires Shaped(s) && s.Idle(0)
    ensures |Accept(s).table.slots| == |Grown(s).table.slots| == |Grown(s).sites| == |Accept(s).sites|
    ensures s.table.NextId() < |Grown(s).table.slots| && Grown(s).table.slots[s.table.NextId()].None?
  {
    hide Of, Counted;
    AddSound(s.table, Newcomer(View(None, NEW_SITE, 0, 0, 0, 0, [])));
  }

  lemma AcceptKeeps(s: State, cfg: B.Config)
    requires Inv(s, cfg) && s.Idle(0)
    ensures Inv(Accept(s), cfg)
  {
    hide Ok, Of, Sound, Counted, Tally, Accept, Routed, Newcomer;
    AcceptShape(s);
    AcceptRouted(s);
    AcceptSlot(s);
    forall j: nat | j < |Grown(s).table.slots|
      ensures Ok(ViewOf(Accept(s), j), cfg)
    {
      GrownView(s, j);
      AcceptView(s, j);
      NewSiteOk(cfg);
      if j == s.table.NextId() {
        if !Grown(s).Stranded(j) {
          NotStranded(Grown(s), j, cfg);
        }
        NewcomerKeeps(ViewOf(Grown(s), j), s.Stranded(j), cfg);
      }
    }
  }
}
