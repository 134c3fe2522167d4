/**
 * The user registry `WSServer` (services/connection-service/websocket/server.go).
 *
 * It maps a user id to that user's holder and fires "user connected" when a call
 * creates the holder and "user disconnected" when a removal empties it. The
 * callbacks are represented by whether one is installed (Go's non-nil), and every
 * invocation is appended to `fired`. Connections are opaque values of type `C`
 * compared by identity. A broadcast's `select` has two cases and no default: when a
 * connection is Done and its write pump has room, Go picks either case at random.
 * So a broadcast is told, as `done`, the connections whose `select` took the Done
 * case, and returns the messages it enqueues on the others.
 */
module ConnectionServer {
  import opened Wrappers
  import SliceUtil
  import opened SafeMapModel
  import opened UserConns
  import opened ServiceConnection
  import opened Utf8

  /** One invocation of a registry callback. */
  datatype Notice = UserConnected(id: string) | UserDisconnected(id: string)

  /** The errors `WSServer` returns. */
  datatype ServerError =
    | NoConnections(msg: string)
    | Removal(removal: SliceUtil.RemovalError)
    | DestroyedHolder(destroyed: DestroyedUConnUsageError)

  function NoConnectionsMsg(id: string): string
  {
    "No connections for id: " + id
  }

  /** How often `n` occurs in `events`. */
  ghost function Count(events: seq<Notice>, n: Notice): nat
  {
    if events == [] then 0
    else Count(events[..|events| - 1], n) + (if events[|events| - 1] == n then 1 else 0)
  }

  /** Connects minus disconnects of `id` in an event history. */
  ghost function Balance(events: seq<Notice>, id: string): int
  {
    Count(events, UserConnected(id)) - Count(events, UserDisconnected(id))
  }

  /** Every user in `ids` has seen exactly one more connect than disconnect, every other user as many. */
  ghost predicate Balanced(events: seq<Notice>, ids: set<string>)
  {
    forall id :: Balance(events, id) == if id in ids then 1 else 0
  }

  /** Connecting a user that has no holder keeps the history balanced. */
  lemma BalancedConnect(events: seq<Notice>, ids: set<string>, id: string)
    requires Balanced(events, ids) && id !in ids
    ensures Balanced(events + [UserConnected(id)], ids + {id})
  {
    forall x ensures Balance(events + [UserConnected(id)], x) == if x in ids + {id} then 1 else 0 {
      assert (events + [UserConnected(id)])[..|events|] == events;
    }
  }

  /** Disconnecting a user that has a holder keeps the history balanced. */
  lemma BalancedDisconnect(events: seq<Notice>, ids: set<string>, id: string)
    requires Balanced(events, ids) && id in ids
    ensures Balanced(events + [UserDisconnected(id)], ids - {id})
  {
    forall x ensures Balance(events + [UserDisconnected(id)], x) == if x in ids - {id} then 1 else 0 {
      assert (events + [UserDisconnected(id)])[..|events|] == events;
    }
  }

  /** The list for `id`, or the empty list when the user has no holder. */
  function ListOf<C>(users: map<string, seq<C>>, id: string): seq<C>
  {
    if id in users then users[id] else []
  }

  /** Filing a user's list twice keeps only the second. */
  lemma RefileList<C>(users: map<string, seq<C>>, id: string, first: seq<C>, second: seq<C>)
    ensures users[id := first][id := second] == users[id := second]
  {
    assert users[id := first][id := second].Keys == users[id := second].Keys;
  }

  /** The messages a broadcast of `msg` enqueues: one per connection outside `done`, in holder order. */
  function Deliveries<C>(conns: seq<C>, done: set<C>, msg: WsMessage): (r: seq<(C, WsMessage)>)
    ensures |r| <= |conns|
  {
    if conns == [] then []
    else
      var last := conns[|conns| - 1];
      Deliveries(conns[..|conns| - 1], done, msg) + (if last in done then [] else [(last, msg)])
  }

  /**
   * A broadcast reaches every connection outside `done` exactly as often as it is
   * held, and reaches no connection of `done`.
   */
  lemma {:induction false} DeliveriesCount<C>(conns: seq<C>, done: set<C>, msg: WsMessage, c: C)
    ensures multiset(Deliveries(conns, done, msg))[(c, msg)] == if c in done then 0 else multiset(conns)[c]
  {
    if conns != [] {
      var init, last := conns[..|conns| - 1], conns[|conns| - 1];
      DeliveriesCount(init, done, msg, c);
      assert conns == init + [last];
      assert multiset(conns)[c] == multiset(init)[c] + (if last == c then 1 else 0);
      var tail := if last in done then [] else [(last, msg)];
      assert Deliveries(conns, done, msg) == Deliveries(init, done, msg) + tail;
      assert multiset(Deliveries(conns, done, msg))[(c, msg)] == multiset(Deliveries(init, done, msg))[(c, msg)] + multiset(tail)[(c, msg)];
    }
  }

  /** Every delivery goes to a held connection outside `done`, and carries the message unchanged. */
  lemma {:induction false} DeliveriesSound<C>(conns: seq<C>, done: set<C>, msg: WsMessage)
    ensures forall p :: p in Deliveries(conns, done, msg) ==> p.1 == msg && p.0 !in done && p.0 in conns
  {
    if conns != [] {
      var init, last := conns[..|conns| - 1], conns[|conns| - 1];
      DeliveriesSound(init, done, msg);
      assert conns == init + [last];
      forall p | p in Deliveries(conns, done, msg) ensures p.1 == msg && p.0 !in done && p.0 in conns {
        if p !in Deliveries(init, done, msg) {
          assert p == (last, msg);
        }
      }
    }
  }

  /** The holder's iteration error, returned by `SendMessage` unchanged. */
  function LiftIterationError(e: Option<DestroyedUConnUsageError>): (r: Option<ServerError>)
    ensures r.None? <==> e.None?
  {
    match e
    case None => None
    case Some(cause) => Some(DestroyedHolder(cause))
  }

  /** Every holder in `holders` is its own object, live, and stores the user's connections. */
  ghost predicate HoldersStore<C>(holders: map<string, UserWsConnections<C>>, users: map<string, seq<C>>)
    reads holders.Values
  {
    && (forall id :: id in holders <==> id in users)
    && (forall id :: id in holders ==> !holders[id].destroyed && holders[id].connections == users[id] != [])
    && (forall id1, id2 :: id1 in holders && id2 in holders && id1 != id2 ==> holders[id1] != holders[id2])
  }

  class WSServer<C(==)> {
    const connections: SafeMap<string, UserWsConnections<C>>
    var onUserConnected: bool
    var onUserDisconnected: bool
    /** Every callback invocation so far, in order. */
    var fired: seq<Notice>
    /** The connections of each user, as the holders in the map store them. */
    ghost var users: map<string, seq<C>>
    /** Every connect and disconnect transition so far, whether or not a callback was installed. */
    ghost var transitions: seq<Notice>

    ghost predicate Holders()
      reads this, connections, connections.data.Values
    {
      HoldersStore(connections.data, users)
    }

    /** The holders agree with `users`, and a user has a holder iff it is connected once more than disconnected. */
    ghost predicate Valid()
      reads this, connections, connections.data.Values
    {
      Holders() && Balanced(transitions, users.Keys)
    }

    /** `NewWSServer`: no users, no callbacks. */
    constructor ()
      ensures Valid() && fresh(connections)
      ensures users == map[] && fired == [] && !onUserConnected && !onUserDisconnected
    {
      connections := new SafeMap();
      onUserConnected, onUserDisconnected := false, false;
      fired, transitions, users := [], [], map[];
    }

    /** `SetOnUserConnected(callback)`: `installed` says whether the callback is non-nil. */
    method SetOnUserConnected(installed: bool)
      requires Valid()
      modifies this
      ensures Valid()
      ensures onUserConnected == installed && onUserDisconnected == old(onUserDisconnected)
      ensures users == old(users) && fired == old(fired) && transitions == old(transitions)
    {
      onUserConnected := installed;
    }

    /** `SetOnUserDisconnected(callback)`: `installed` says whether the callback is non-nil. */
    method SetOnUserDisconnected(installed: bool)
      requires Valid()
      modifies this
      ensures Valid()
      ensures onUserDisconnected == installed && onUserConnected == old(onUserConnected)
      ensures users == old(users) && fired == old(fired) && transitions == old(transitions)
    {
      onUserDisconnected := installed;
    }

    /**
     * The `ComputeIfAbsent` call of the retry loop, with `newUserWsConnections` as the
     * supplier: the holder stored for `id`, created empty when there was none. No
     * holder is modified, and the one returned is not stored under any other id.
     */
    method HolderFor(id: string) returns (holder: UserWsConnections<C>, created: bool)
      requires Holders()
      modifies connections
      ensures created <==> id !in old(connections.data)
      ensures connections.data == old(connections.data)[id := holder]
      ensures created ==> fresh(holder) && holder.connections == [] && !holder.destroyed
      ensures !created ==> holder == old(connections.data)[id]
      ensures forall x :: x in old(connections.data) && x != id ==> old(connections.data)[x] != holder
    {
      var supplied := new UserWsConnections<C>();
      holder, created := connections.ComputeIfAbsent(id, supplied);
    }

    /**
     * One pass of the retry loop: the holder for `id`, then its `AddConnection`.
     * Because every holder in the map is live, the addition never meets a destroyed holder.
     */
    method TryAdd(id: string, conn: C) returns (created: bool, err: Option<DestroyedUConnUsageError>)
      requires Holders()
      modifies this, connections, connections.data.Values
      ensures Holders()
      ensures id in connections.data && connections.data == old(connections.data)[id := connections.data[id]]
      ensures err == None
      ensures created <==> id !in old(users)
      ensures users == old(users)[id := ListOf(old(users), id) + [conn]]
      ensures transitions == old(transitions) && fired == old(fired)
      ensures onUserConnected == old(onUserConnected) && onUserDisconnected == old(onUserDisconnected)
    {
      ghost var oldData := connections.data;
      var userConns;
      userConns, created := HolderFor(id);
      err := userConns.AddConnection(conn);
      users := users[id := ListOf(users, id) + [conn]];
      forall x | x in connections.data
        ensures !connections.data[x].destroyed && connections.data[x].connections == users[x] != []
      {
        if x != id {
          assert connections.data[x] == oldData[x] != userConns;
        }
      }
    }

    /**
     * The end of a successful `AddConnection`: a created holder is a connect
     * transition, and "user connected" fires for it when a callback is installed.
     */
    method NoteConnected(id: string, created: bool, ghost before: set<string>)
      requires Holders() && Balanced(transitions, before)
      requires created <==> id !in before
      requires users.Keys == before + {id}
      modifies this
      ensures Valid() && users == old(users)
      ensures fired == old(fired) + (if created && onUserConnected then [UserConnected(id)] else [])
      ensures transitions == old(transitions) + (if created then [UserConnected(id)] else [])
      ensures onUserConnected == old(onUserConnected) && onUserDisconnected == old(onUserDisconnected)
    {
      if created {
        BalancedConnect(transitions, before, id);
        transitions := transitions + [UserConnected(id)];
        if onUserConnected {
          fired := fired + [UserConnected(id)];
        }
      } else {
        assert before + {id} == before;
      }
    }

    /**
     * `AddConnection(id, conn)`: after it, `conn` is the last connection held for `id`;
     * "user connected" fires iff this call created the holder and a callback is installed.
     * The source retries on a `DestroyedUConnUsageError`; since `TryAdd` never meets
     * a destroyed holder, its first pass is the last and the retry branch is not written.
     */
    method AddConnection(id: string, conn: C) returns (err: Option<ServerError>)
      requires Valid()
      modifies this, connections, connections.data.Values
      ensures Valid()
      ensures err == None
      ensures users == old(users)[id := ListOf(old(users), id) + [conn]]
      ensures fired == old(fired) + (if id !in old(users) && onUserConnected then [UserConnected(id)] else [])
      ensures transitions == old(transitions) + (if id !in old(users) then [UserConnected(id)] else [])
      ensures onUserConnected == old(onUserConnected) && onUserDisconnected == old(onUserDisconnected)
    {
      ghost var before := users.Keys;
      var created, addErr := TryAdd(id, conn);
      NoteConnected(id, created, before);
      return None;
    }

    /**
     * The holder's `RemoveConnection`: afterwards the user holds what the swap-removal
     * left; when that is nothing the holder is destroyed and only its map entry is
     * still to be deleted.
     */
    method ShrinkHolder(id: string, holder: UserWsConnections<C>, conn: C)
      returns (destroyed: bool, removeErr: Option<SliceUtil.RemovalError>)
      requires Holders() && id in connections.data && holder == connections.data[id]
      modifies this, holder
      ensures destroyed ==> HoldersStore(connections.data - {id}, users)
      ensures !destroyed ==> HoldersStore(connections.data, users)
      ensures var r := SliceUtil.RemoveSwapElemSpec(old(users)[id], conn);
        && removeErr == (if r.Failure? then Some(r.error) else None)
        && (destroyed <==> r.Success? && r.value == [])
        && users == if destroyed then old(users) - {id} else old(users)[id := if r.Success? then r.value else old(users)[id]]
      ensures transitions == old(transitions) && fired == old(fired)
      ensures onUserConnected == old(onUserConnected) && onUserDisconnected == old(onUserDisconnected)
    {
      ghost var oldData := connections.data;
      assert forall x :: x in oldData && x != id ==> oldData[x] != holder;
      destroyed, removeErr := holder.RemoveConnection(conn);
      if destroyed {
        users := users - {id};
        ghost var kept := oldData - {id};
        forall x | x in kept
          ensures !kept[x].destroyed && kept[x].connections == users[x] != []
        {
          assert kept[x] == oldData[x] != holder;
        }
      } else {
        users := users[id := holder.connections];
        forall x | x in oldData
          ensures !oldData[x].destroyed && oldData[x].connections == users[x] != []
        {
          if x != id {
            assert oldData[x] != holder;
          }
        }
      }
    }

    /**
     * The end of `RemoveConnection`: a destroyed holder's id is deleted from the map,
     * which is a disconnect transition, and "user disconnected" fires for it when a
     * callback is installed.
     */
    method EvictIfDestroyed(id: string, destroyed: bool, ghost before: set<string>)
      requires destroyed ==> HoldersStore(connections.data - {id}, users)
      requires !destroyed ==> HoldersStore(connections.data, users)
      requires Balanced(transitions, before)
      requires destroyed ==> id in before && users.Keys == before - {id}
      requires !destroyed ==> users.Keys == before
      modifies this, connections
      ensures Valid() && users == old(users)
      ensures fired == old(fired) + (if destroyed && onUserDisconnected then [UserDisconnected(id)] else [])
      ensures transitions == old(transitions) + (if destroyed then [UserDisconnected(id)] else [])
      ensures onUserConnected == old(onUserConnected) && onUserDisconnected == old(onUserDisconnected)
    {
      if destroyed {
        connections.Delete(id);
        BalancedDisconnect(transitions, before, id);
        transitions := transitions + [UserDisconnected(id)];
        if onUserDisconnected {
          fired := fired + [UserDisconnected(id)];
        }
      }
    }

    /**
     * `RemoveConnection(id, conn)`: an unknown id is reported and fires nothing; otherwise
     * the holder swap-removes `conn`, and when that empties it the id is deleted and
     * "user disconnected" fires (if installed). The holder's own removal error is returned.
     */
    method RemoveConnection(id: string, conn: C) returns (err: Option<ServerError>)
      requires Valid()
      modifies this, connections, connections.data.Values
      ensures Valid()
      ensures onUserConnected == old(onUserConnected) && onUserDisconnected == old(onUserDisconnected)
      ensures id !in old(users) ==> && err == Some(NoConnections(NoConnectionsMsg(id)))
                                    && users == old(users) && fired == old(fired)
                                    && transitions == old(transitions)
      ensures id in old(users) ==>
        var r := SliceUtil.RemoveSwapElemSpec(old(users)[id], conn);
        && err == (if r.Failure? then Some(Removal(r.error)) else None)
        && (r.Success? && r.value == [] ==>
              && users == old(users) - {id}
              && transitions == old(transitions) + [UserDisconnected(id)]
              && fired == old(fired) + (if onUserDisconnected then [UserDisconnected(id)] else []))
        && (r.Failure? || r.value != [] ==>
              && users == old(users)[id := if r.Success? then r.value else old(users)[id]]
              && transitions == old(transitions) && fired == old(fired))
    {
      var userConns := connections.Get(id);
      if userConns.None? {
        return Some(NoConnections(NoConnectionsMsg(id)));
      }
      ghost var before := users.Keys;
      var destroyed, removeErr := ShrinkHolder(id, userConns.value, conn);
      EvictIfDestroyed(id, destroyed, before);
      err := if removeErr.Some? then Some(Removal(removeErr.value)) else None;
    }

    /**
     * `SendMessage(id, msgData, msgType)`: an unknown id is reported; otherwise the
     * message `{msgType, msgData}` is enqueued on each connection of the user whose
     * `select` did not take the Done case (those not in `done`), and nothing is reported.
     */
    method SendMessage(id: string, msgData: seq<byte>, msgType: int, done: set<C>)
      returns (err: Option<ServerError>, enqueued: seq<(C, WsMessage)>)
      requires Valid()
      ensures id !in users ==> err == Some(NoConnections(NoConnectionsMsg(id))) && enqueued == []
      ensures id in users ==> err == None && enqueued == Deliveries(users[id], done, WsMessage(msgType, msgData))
    {
      var userConns := connections.Get(id);
      if userConns.None? {
        return Some(NoConnections(NoConnectionsMsg(id))), [];
      }
      var iterErr, visited := userConns.value.ForAllConnections();
      err := LiftIterationError(iterErr);
      enqueued := Deliveries(visited, done, WsMessage(msgType, msgData));
    }

    /** `SendTextMessage(id, msg)`: the UTF-8 bytes of `msg`, sent as a text frame. */
    method SendTextMessage(id: string, msg: string, done: set<C>)
      returns (err: Option<ServerError>, enqueued: seq<(C, WsMessage)>)
      requires Valid()
      ensures id !in users ==> err == Some(NoConnections(NoConnectionsMsg(id))) && enqueued == []
      ensures id in users ==> err == None && enqueued == Deliveries(users[id], done, WsMessage(TextMessage, Encode(msg)))
      ensures forall p :: p in enqueued ==> p.1.msgType == TextMessage && Decode(p.1.data) == Some(msg)
    {
      err, enqueued := SendMessage(id, Encode(msg), TextMessage, done);
      DecodeEncode(msg);
      if id in users {
        DeliveriesSound(users[id], done, WsMessage(TextMessage, Encode(msg)));
      }
    }

    /** `SendBinaryMessage(id, msg)`: the bytes `msg`, sent unchanged as a binary frame. */
    method SendBinaryMessage(id: string, msg: seq<byte>, done: set<C>)
      returns (err: Option<ServerError>, enqueued: seq<(C, WsMessage)>)
      requires Valid()
      ensures id !in users ==> err == Some(NoConnections(NoConnectionsMsg(id))) && enqueued == []
      ensures id in users ==> err == None && enqueued == Deliveries(users[id], done, WsMessage(BinaryMessage, msg))
    {
      err, enqueued := SendMessage(id, msg, BinaryMessage, done);
    }
  }
}
