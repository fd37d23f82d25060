/** The client list of src/networking/TCPServer.h:506-567: slots, and a stack of the free ones. */
module ClientTables {
  import opened Text
  import opened Clients

  datatype Table<T> = Table(slots: seq<Option<T>>, freeIds: seq<nat>) {
    predicate Live(id: nat) {
      id < |slots| && slots[id].Some?
    }

    /** The id `addClient` hands out next. */
    function NextId(): nat {
      if freeIds != [] then freeIds[|freeIds| - 1] else |slots|
    }

    function Add(item: T): Table<T>
      requires Sound(this)
    {
      if freeIds != [] then Table(slots[NextId() := Some(item)], freeIds[..|freeIds| - 1])
      else Table(slots + [Some(item)], [])
    }

    /** `terminateClient`: a stale or unknown id changes nothing. */
    function Remove(id: nat): Table<T> {
      if Live(id) then Table(slots[id := None], freeIds + [id]) else this
    }
  }

  predicate Unique(ids: seq<nat>) {
    forall i, j :: 0 <= i < j < |ids| ==> ids[i] != ids[j]
  }

  /** The free ids are the empty slots, each of them once. */
  predicate Sound<T>(t: Table<T>) {
    && Unique(t.freeIds)
    && (forall k :: 0 <= k < |t.freeIds| ==> t.freeIds[k] < |t.slots|)
    && (forall id: nat :: id < |t.slots| ==> (t.slots[id].None? <==> id in t.freeIds))
  }

  /** A new client gets a slot no live client has; the others keep theirs. */
  lemma AddSound<T>(t: Table<T>, item: T)
    requires Sound(t)
    ensures Sound(t.Add(item)) && !t.Live(t.NextId())
    ensures forall id: nat :: id != t.NextId() ==>
              (t.Add(item).Live(id) <==> t.Live(id)) && (t.Live(id) ==> t.Add(item).slots[id] == t.slots[id])
    ensures t.Add(item).Live(t.NextId()) && t.Add(item).slots[t.NextId()] == Some(item)
  {
  }

  lemma RemoveSound<T>(t: Table<T>, id: nat)
    requires Sound(t)
    ensures Sound(t.Remove(id)) && !t.Remove(id).Live(id)
    ensures forall other: nat :: other != id ==>
              (t.Remove(id).Live(other) <==> t.Live(other))
              && (t.Live(other) ==> t.Remove(id).slots[other] == t.slots[other])
  {
  }

  /** The id that became free last is handed out first: the next client takes the slot, and the free ids
      are as they were. */
  lemma ReusedFirst<T>(t: Table<T>, id: nat, item: T)
    requires Sound(t) && t.Live(id)
    ensures Sound(t.Remove(id)) && t.Remove(id).NextId() == id
    ensures t.Remove(id).Add(item) == t.(slots := t.slots[id := Some(item)])
  {
    RemoveSound(t, id);
    assert (t.freeIds + [id])[..|t.freeIds|] == t.freeIds;
  }

  /** Storing into a live slot leaves the table in order. */
  lemma StoreSound<T>(t: Table<T>, id: nat, item: T)
    requires Sound(t) && t.Live(id)
    ensures Sound(t.(slots := t.slots[id := Some(item)]))
  {
  }

  // ------------------------------------------------------------- whole histories

  function CountLive<T>(slots: seq<Option<T>>): nat {
    if slots == [] then 0
    else CountLive(slots[..|slots| - 1]) + if slots[|slots| - 1].Some? then 1 else 0
  }

  lemma {:induction false} CountLiveUpdate<T>(slots: seq<Option<T>>, id: nat, entry: Option<T>)
    requires id < |slots|
    ensures CountLive(slots[id := entry])
            == CountLive(slots) - (if slots[id].Some? then 1 else 0) + (if entry.Some? then 1 else 0)
  {
    var last := |slots| - 1;
    if id < last {
      CountLiveUpdate(slots[..last], id, entry);
      assert slots[id := entry][..last] == slots[..last][id := entry];
    } else {
      assert slots[id := entry][..last] == slots[..last];
    }
  }

  lemma CountLiveAppend<T>(slots: seq<Option<T>>, item: T)
    ensures CountLive(slots + [Some(item)]) == CountLive(slots) + 1
  {
    assert (slots + [Some(item)])[..|slots|] == slots;
  }

  datatype Operation<T> = Connected(item: T) | Ended(id: nat)

  function Apply<T>(t: Table<T>, op: Operation<T>): (u: Table<T>)
    requires Sound(t)
    ensures Sound(u)
  {
    match op
    case Connected(item) => AddSound(t, item); t.Add(item)
    case Ended(id) => RemoveSound(t, id); t.Remove(id)
  }

  function History<T>(t: Table<T>, ops: seq<Operation<T>>): (u: Table<T>)
    requires Sound(t)
    ensures Sound(u)
    decreases |ops|
  {
    if ops == [] then t else History(Apply(t, ops[0]), ops[1..])
  }

  /** The largest number of clients alive at one time along the way. */
  function Peak<T>(t: Table<T>, ops: seq<Operation<T>>): nat
    requires Sound(t)
    decreases |ops|
  {
    if ops == [] then CountLive(t.slots)
    else
      var later := Peak(Apply(t, ops[0]), ops[1..]);
      if later < CountLive(t.slots) then CountLive(t.slots) else later
  }

  /** Every slot is taken or free, and counted once. */
  predicate Counted<T>(t: Table<T>) {
    CountLive(t.slots) + |t.freeIds| == |t.slots|
  }

  lemma ApplyCounted<T>(t: Table<T>, op: Operation<T>)
    requires Sound(t) && Counted(t)
    ensures Counted(Apply(t, op))
    ensures var live := CountLive(Apply(t, op).slots);
            |Apply(t, op).slots| == if live > |t.slots| then live else |t.slots|
  {
    match op {
      case Connected(item) =>
        if t.freeIds != [] {
          AddSound(t, item);
          assert t.freeIds[|t.freeIds| - 1] in t.freeIds;
          CountLiveUpdate(t.slots, t.NextId(), Some(item));
        } else {
          CountLiveAppend(t.slots, item);
        }
      case Ended(id) =>
        if t.Live(id) {
          CountLiveUpdate(t.slots, id, None);
        }
    }
  }

  lemma {:induction false} HistoryLength<T>(t: Table<T>, ops: seq<Operation<T>>)
    requires Sound(t) && Counted(t)
    ensures |History(t, ops).slots| == if Peak(t, ops) > |t.slots| then Peak(t, ops) else |t.slots|
    decreases |ops|
  {
    if ops != [] {
      ApplyCounted(t, ops[0]);
      HistoryLength(Apply(t, ops[0]), ops[1..]);
    }
  }

  /** The table only grows when every slot is taken: after any history of connections and
      terminations it is as long as the most clients that were ever connected at once. */
  lemma {:induction false} LengthIsPeak<T>(ops: seq<Operation<T>>)
    ensures |History(Table([], []), ops).slots| == Peak(Table([], []), ops)
  {
    HistoryLength(Table([], []), ops);
  }

  // ------------------------------------------------------------------- the list

  class ClientTable {
    var clientList: seq<Option<Client>>
    var freeIds: seq<nat>

    constructor ()
      ensures Valid() && Contents() == Table([], [])
    {
      clientList, freeIds := [], [];
    }

    ghost function Contents(): Table<Client>
      reads this
    {
      Table(clientList, freeIds)
    }

    /** The table is in order and every client is in the slot its id names. */
    ghost predicate Valid()
      reads this
    {
      Sound(Contents()) &&
      forall id: nat :: id < |clientList| && clientList[id].Some? ==> clientList[id].value.id == id
    }

    /** A client with one reference, in a slot that was not in use. */
    method AddClient(bufferLen: nat) returns (client: Client)
      requires Valid()
      modifies this
      ensures Valid() && fresh(client) && client.Contents() == NEW_ACCOUNT.(refs := 1)
      ensures fresh(client.recvBuffer) && client.recvBuffer.Length == bufferLen
      ensures client.id == old(Contents()).NextId() && !old(Contents()).Live(client.id)
      ensures old(Sound(Contents())) && Contents() == old(Contents()).Add(client)
    {
      var id: nat;
      ghost var was := Contents();
      if freeIds != [] {
        id := freeIds[|freeIds| - 1];
        client := new Client(id, bufferLen);
        freeIds := freeIds[..|freeIds| - 1];
        clientList := clientList[id := Some(client)];
      } else {
        id := |clientList|;
        client := new Client(id, bufferLen);
        clientList := clientList + [Some(client)];
      }
      client.IncreaseReferenceCount();
      AddSound(was, client);
    }

    /** The live client with this id, with one more reference, or nothing. */
    method GetClient(id: nat) returns (client: Option<Client>)
      requires Valid()
      modifies if Contents().Live(id) then {clientList[id].value} else {}
      ensures client == if Contents().Live(id) then clientList[id] else None
      ensures client.Some? ==>
                && client.value.id == id
                && client.value.Contents() == Borrow(old(clientList[id].value.Contents()))
    {
      if id < |clientList| && clientList[id].Some? {
        clientList[id].value.IncreaseReferenceCount();
        client := clientList[id];
      } else {
        client := None;
      }
    }

    method TerminateClient(id: nat)
      requires Valid()
      modifies this
      ensures Valid() && Contents() == old(Contents()).Remove(id)
    {
      RemoveSound(Contents(), id);
      if id < |clientList| && clientList[id].Some? {
        clientList := clientList[id := None];
        freeIds := freeIds + [id];
      }
    }
  }
}
