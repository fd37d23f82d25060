/** When the ownership of receive buffers holds throughout a run of the server
    (src/networking/TCPServer.h), and when not. */
module ServerOwnership {
  import opened Text
  import opened Clients
  import opened ClientTables
  import opened ServerState
  import opened ServerSafety
  import opened ServerRuns
  import B = BoundedParser

  /** A send of `id` fails to be posted while its client is neither disconnecting nor rejected. */
  ghost predicate LosesClient(s: State, e: Event, id: nat, cfg: B.Config) {
    Enabled(s, e, cfg) &&
    match e
    case Sent(t, ok) => s.tasks[t].value.id == id && FailsFirst(s.Conn(id), ok)
    case Rejected(t, ok) => s.tasks[t].value.id == id && FailsFirst(s.Conn(id), ok)
    case SendDone(i, ok) => i == id && FailsNext(s.Conn(id), ok)
    case _ => false
  }

  /** Nothing is being sent, so a new message is posted at once. */
  predicate FailsFirst(c: Connection, ok: bool) {
    !ok && !c.account.sending && !Leaving(c)
  }

  /** More is queued behind the chunk that was sent. */
  predicate FailsNext(c: Connection, ok: bool) {
    !ok && |c.account.outbound| > 1 && !Leaving(c)
  }

  predicate Tainted(s: State, id: nat) {
    id < |s.sites| && s.sites[id].tainted
  }

  lemma SendTaint(c: Connection, site: Site, message: string, size: nat, ok: bool)
    requires Delivered(c, site, size) && size > 0
    ensures AfterSend(c, site, message, size, ok).site.tainted <==> site.tainted || FailsFirst(c, ok)
  {
    hide Concat, Chunks;
    ChunksWhole(message, size);
  }

  lemma SentTaint(c: Connection, site: Site, size: nat, ok: bool)
    requires Delivered(c, site, size) && site.sends != []
    ensures c.account.outbound != []
    ensures AfterSent(c, site, size, ok).site.tainted <==> site.tainted || FailsNext(c, ok)
  {
    hide Concat;
  }

  /** A new client of an id inherits its mark only while the id is stranded. */
  lemma AcceptTaint(s: State, id: nat)
    requires s.Idle(0) && Sound(s.table) && |s.sites| == |s.table.slots|
    ensures Tainted(Accept(s), id)
            <==> Tainted(s, id) && (id == s.table.NextId() ==> s.Stranded(id))
  {
    hide Of, CountLive;
    assert s.table.freeIds != [] ==> s.table.freeIds[|s.table.freeIds| - 1] in s.table.freeIds;
  }

  lemma SendStepTaint(s: State, t: nat, message: string, next: Stage, ok: bool, id: nat, cfg: B.Config)
    requires Inv(s, cfg) && s.Busy(t)
    ensures var i := s.tasks[t].value.id;
            var after := AfterSend(s.Conn(i), s.sites[i], message, cfg.capacity, ok);
            Tainted(s.Put(i, after).WithTask(t, Some(Task(i, next))), id)
            <==> Tainted(s, id) || (i == id && FailsFirst(s.Conn(id), ok))
  {
    hide Tally, Of, Sound, Counted, Routed, InOrder, Delivered, Referenced, Owned, AfterSend;
    var i := s.tasks[t].value.id;
    assert Ok(ViewOf(s, i), cfg);
    SendTaint(s.Conn(i), s.sites[i], message, cfg.capacity, ok);
  }

  lemma SendDoneTaint(s: State, i: nat, ok: bool, id: nat, cfg: B.Config)
    requires Inv(s, cfg) && s.Served(i) && s.sites[i].sends != []
    ensures s.Conn(i).account.outbound != []
    ensures Tainted(s.Put(i, AfterSent(s.Conn(i), s.sites[i], cfg.capacity, ok)), id)
            <==> Tainted(s, id) || (i == id && FailsNext(s.Conn(id), ok))
  {
    hide Tally, Of, Sound, Counted, Routed, InOrder, Delivered, Referenced, Owned, AfterSent;
    assert Ok(ViewOf(s, i), cfg);
    SentTaint(s.Conn(i), s.sites[i], cfg.capacity, ok);
  }

  lemma OtherTaint(s: State, e: Event, id: nat, cfg: B.Config)
    requires cfg.capacity > 0 && Enabled(s, e, cfg)
    requires !e.Accepted? && !e.Sent? && !e.Rejected? && !e.SendDone?
    ensures Tainted(Next(s, e, cfg), id) <==> Tainted(s, id)
  {
    hide FeedReturns, Of, Tagged;
  }

  /** The mark of an id is set by exactly these events, and cleared only when a new client gets the id
      and it is not stranded. */
  lemma TaintStep(s: State, e: Event, id: nat, cfg: B.Config)
    requires Inv(s, cfg) && Enabled(s, e, cfg)
    ensures Tainted(Next(s, e, cfg), id)
            <==> (Tainted(s, id) && (e.Accepted? && id == s.table.NextId() ==> s.Stranded(id)))
                 || LosesClient(s, e, id, cfg)
  {
    hide Ok, ViewOf, Sound, Counted, Routed, Tainted, FailsFirst, FailsNext, Accept, AfterSend, AfterSent, FeedReturns;
    match e
    case Accepted => AcceptTaint(s, id);
    case Sent(t, ok) => SendStepTaint(s, t, s.tasks[t].value.stage.message, Dropping, ok, id, cfg);
    case Rejected(t, ok) => SendStepTaint(s, t, s.tasks[t].value.stage.text, HangingUp, ok, id, cfg);
    case SendDone(i, ok) => SendDoneTaint(s, i, ok, id, cfg);
    case _ => OtherTaint(s, e, id, cfg);
  }

  // ------------------------------------------------------ what such a failure does

  /** The buffer's owners, in the view of one client. */
  function OwnersOf(v: View): int {
    v.site.receives + v.waiting + v.posting
  }

  /** A thread that sends, or is to hang up, goes on and leaves the owners as they were. */
  lemma SendStepOwners(s: State, t: nat, after: Local, from: Stage, next: Stage)
    requires Shaped(s) && s.At(t, from)
    requires (from.Sending? && next == Dropping) || (from.Rejecting? && next == HangingUp)
    ensures var id := s.tasks[t].value.id;
            var u := s.Put(id, after).WithTask(t, Some(Task(id, next)));
            && id < |u.table.slots| && id < |u.sites| && |u.queues| > 0 && u.table.slots[id] == after.entry
            && OwnersOf(ViewOf(u, id)) == OwnersOf(ViewOf(s, id)) - s.sites[id].receives + after.site.receives
  {
    hide Tally, Of, Sound, Counted;
    var id := s.tasks[t].value.id;
    PutShape(s, id, after);
    PutView(s, id, after, id);
    TaskView(s.Put(id, after), t, Some(Task(id, next)), id);
  }

  lemma SendLoses(s: State, t: nat, message: string, next: Stage, ok: bool, cfg: B.Config)
    requires Inv(s, cfg) && s.Busy(t)
    requires (s.At(t, Sending(message)) && next == Dropping) || (s.At(t, Rejecting(message)) && next == HangingUp)
    requires var id := s.tasks[t].value.id; !s.sites[id].tainted && FailsFirst(s.Conn(id), ok)
    ensures var id := s.tasks[t].value.id;
            var after := AfterSend(s.Conn(id), s.sites[id], message, cfg.capacity, ok);
            !OwnedRightly(s.Put(id, after).WithTask(t, Some(Task(id, next))), id)
  {
    var id := s.tasks[t].value.id;
    var after := AfterSend(s.Conn(id), s.sites[id], message, cfg.capacity, ok);
    FailedSendLeaves(s.Conn(id), s.sites[id], message, cfg.capacity, ok);
    hide Tally, Of, Sound, Counted, Routed, InOrder, Delivered, Referenced, AfterSend;
    assert Ok(ViewOf(s, id), cfg);
    SendStepOwners(s, t, after, s.tasks[t].value.stage, next);
  }

  lemma FailedSendLeaves(c: Connection, site: Site, message: string, size: nat, ok: bool)
    requires size > 0 && FailsFirst(c, ok)
    ensures var after := AfterSend(c, site, message, size, ok);
            after.site.receives == site.receives && after.entry.Some? && Leaving(after.entry.value)
  {
    hide Chunks;
    ChunksWhole(message, size);
  }

  lemma SendDoneLoses(s: State, id: nat, ok: bool, cfg: B.Config)
    requires Inv(s, cfg) && s.Served(id) && s.sites[id].sends != [] && s.Conn(id).account.outbound != []
    requires !s.sites[id].tainted && FailsNext(s.Conn(id), ok)
    ensures !OwnedRightly(s.Put(id, AfterSent(s.Conn(id), s.sites[id], cfg.capacity, ok)), id)
  {
    var after := AfterSent(s.Conn(id), s.sites[id], cfg.capacity, ok);
    assert after.site.receives == s.sites[id].receives && (after.entry.Some? ==> Leaving(after.entry.value));
    hide Tally, Of, Sound, Counted, Routed, InOrder, Delivered, Referenced, AfterSent;
    assert Ok(ViewOf(s, id), cfg);
    PutView(s, id, after, id);
  }

  /** Until then the buffer was owned rightly; afterwards a client on its way out, or none, owns it. */
  lemma LosingBreaksOwnership(s: State, e: Event, id: nat, cfg: B.Config)
    requires Inv(s, cfg) && LosesClient(s, e, id, cfg) && !Tainted(s, id)
    ensures !OwnedRightly(Next(s, e, cfg), id)
  {
    hide Ok, ViewOf, Sound, Counted, Routed, FailsFirst, FailsNext, AfterSend, AfterSent, OwnedRightly, FeedReturns;
    match e
    case Sent(t, ok) => SendLoses(s, t, s.tasks[t].value.stage.message, Dropping, ok, cfg);
    case Rejected(t, ok) => SendLoses(s, t, s.tasks[t].value.stage.text, HangingUp, ok, cfg);
    case SendDone(i, ok) => SendDoneLoses(s, i, ok, cfg);
  }

  // ------------------------------------------------------------------ whole runs

  /** The state of a run after its first `k` events. */
  ghost function At(start: State, events: seq<Event>, k: nat, cfg: B.Config): State
    requires cfg.capacity > 0 && k <= |events|
  {
    Run(start, events[..k], cfg)
  }

  lemma AtNext(start: State, events: seq<Event>, k: nat, cfg: B.Config)
    requires cfg.capacity > 0 && k < |events|
    ensures var s := At(start, events, k, cfg);
            At(start, events, k + 1, cfg) == if Enabled(s, events[k], cfg) then Next(s, events[k], cfg) else s
  {
    hide Enabled, Next, Run;
    assert events[..k + 1] == events[..k] + [events[k]];
    RunSnoc(start, events[..k], events[k], cfg);
  }

  /** No such failure so far, so the id is not tainted. */
  lemma {:induction false} NotTainted(start: State, events: seq<Event>, k: nat, id: nat, cfg: B.Config)
    requires cfg.capacity > 0 && Inv(start, cfg) && !Tainted(start, id) && k <= |events|
    requires forall j :: 0 <= j < k ==> !LosesClient(At(start, events, j, cfg), events[j], id, cfg)
    ensures Inv(At(start, events, k, cfg), cfg) && !Tainted(At(start, events, k, cfg), id)
  {
    hide Inv, Enabled, Next, Tainted, LosesClient;
    RunKeeps(start, events[..k], cfg);
    if k > 0 {
      NotTainted(start, events, k - 1, id, cfg);
      AtNext(start, events, k - 1, cfg);
      var s := At(start, events, k - 1, cfg);
      if Enabled(s, events[k - 1], cfg) {
        TaintStep(s, events[k - 1], id, cfg);
      }
    }
  }

  lemma UntaintedOwned(s: State, id: nat, cfg: B.Config)
    requires Inv(s, cfg) && !Tainted(s, id)
    ensures OwnedRightly(s, id)
  {
    hide Tally, Of, Sound, Counted, Routed, InOrder, Delivered, Referenced;
    if id < |s.sites| {
      assert Ok(ViewOf(s, id), cfg);
    }
  }

  /** The first failure breaks the ownership. */
  lemma {:induction false} LossShows(start: State, events: seq<Event>, k: nat, id: nat, cfg: B.Config)
    requires cfg.capacity > 0 && Inv(start, cfg) && !Tainted(start, id) && k < |events|
    requires LosesClient(At(start, events, k, cfg), events[k], id, cfg)
    ensures exists j :: 0 <= j <= |events| && !OwnedRightly(At(start, events, j, cfg), id)
  {
    hide Inv, Enabled, Next, Tainted, OwnedRightly, Run;
    if j :| 0 <= j < k && LosesClient(At(start, events, j, cfg), events[j], id, cfg) {
      LossShows(start, events, j, id, cfg);
    } else {
      NotTainted(start, events, k, id, cfg);
      AtNext(start, events, k, cfg);
      LosingBreaksOwnership(At(start, events, k, cfg), events[k], id, cfg);
      assert !OwnedRightly(At(start, events, k + 1, cfg), id);
    }
  }

  /** Ownership, exactly: throughout a run the receive buffer of an id is owned rightly if and only if
      no send of that id failed to be posted while its client was neither disconnecting nor rejected. */
  lemma OwnershipExactness(workers: nat, threads: nat, events: seq<Event>, id: nat, cfg: B.Config)
    requires workers > 0 && cfg.capacity > 0
    ensures var start := Start(workers, threads);
            (forall k :: 0 <= k <= |events| ==> OwnedRightly(At(start, events, k, cfg), id))
            <==> (forall k :: 0 <= k < |events| ==> !LosesClient(At(start, events, k, cfg), events[k], id, cfg))
  {
    var start := Start(workers, threads);
    StartKeeps(workers, threads, cfg);
    assert !Tainted(start, id);
    hide Inv, Run, Tainted, LosesClient, OwnedRightly, Start;
    if k :| 0 <= k < |events| && LosesClient(At(start, events, k, cfg), events[k], id, cfg) {
      LossShows(start, events, k, id, cfg);
    } else {
      forall k | 0 <= k <= |events|
        ensures OwnedRightly(At(start, events, k, cfg), id)
      {
        NotTainted(start, events, k, id, cfg);
        UntaintedOwned(At(start, events, k, cfg), id, cfg);
      }
    }
  }

  lemma CloserIsLeaving(s: State, t: nat, cfg: B.Config)
    requires Inv(s, cfg) && s.Busy(t) && s.tasks[t].value.stage.Rejecting? && !Tainted(s, s.tasks[t].value.id)
    ensures Leaving(s.Conn(s.tasks[t].value.id))
  {
    hide Tally, Of, Sound, Counted, Routed, InOrder, Delivered, Referenced;
    var id := s.tasks[t].value.id;
    assert Ok(ViewOf(s, id), cfg);
    Present(s, t, id, Closer);
  }

  /** The error text of a rejected client may fail to be posted: its buffer has no owner before and
      none after, and nothing of the id is lost. */
  lemma RejectedSendIsHarmless(s: State, t: nat, ok: bool, cfg: B.Config)
    requires Inv(s, cfg) && Enabled(s, Rejected(t, ok), cfg) && !Tainted(s, s.tasks[t].value.id)
    ensures var id := s.tasks[t].value.id;
            && Leaving(s.Conn(id)) && !Tainted(Next(s, Rejected(t, ok), cfg), id)
            && OwnedRightly(s, id) && OwnedRightly(Next(s, Rejected(t, ok), cfg), id)
  {
    hide Tally, Of, Sound, Counted, Routed, InOrder, Delivered, Referenced, Next, OwnedRightly, Inv;
    CloserIsLeaving(s, t, cfg);
    TaintStep(s, Rejected(t, ok), s.tasks[t].value.id, cfg);
    NextKeeps(s, Rejected(t, ok), cfg);
    UntaintedOwned(s, s.tasks[t].value.id, cfg);
    UntaintedOwned(Next(s, Rejected(t, ok), cfg), s.tasks[t].value.id, cfg);
  }
}
