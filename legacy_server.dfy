/**
 * An earlier registry snapshot, `WSConnections` (websocket/server.go).
 *
 * Users map to holders of their connections, as in the connection service's
 * registry, but without the destroyed-holder protocol and without callbacks: a
 * holder is created on first use and stays in the map for good, even once empty.
 * Connections are opaque values of type `C`. A broadcast's `select` has a
 * `default` case, so it skips exactly the connections that are Done: it is told
 * which they are, as `done`, and returns the messages it puts on the others' pumps.
 */
module LegacyServer {
  import opened Wrappers
  import SliceUtil
  import opened ServiceConnection
  import opened Utf8
  import ConnectionServer

  /** `WSError{msg}`. */
  datatype WSError = WSError(msg: string)

  /** What `RemoveConnection` returns: the registry's own error, or the holder's removal error. */
  datatype RegistryError = NoConnections(wsError: WSError) | Removal(removal: SliceUtil.RemovalError)

  /** `userWsConnections`: the connections of one user, in insertion order up to swap-removals. */
  class UserWsConnections<C(==)> {
    var connections: seq<C>

    /** `newUserWsSessions(initialCapacity)`: empty, whatever the capacity. */
    constructor ()
      ensures connections == []
    {
      connections := [];
    }

    /** `AddConnection(conn)`: appends, with no check for duplicates. */
    method AddConnection(conn: C)
      modifies this
      ensures connections == old(connections) + [conn]
    {
      connections := connections + [conn];
    }

    /** `RemoveConnection(conn)`: swap-removes the first occurrence of `conn`, or reports it missing. */
    method RemoveConnection(conn: C) returns (err: Option<SliceUtil.RemovalError>)
      modifies this
      ensures var r := SliceUtil.RemoveSwapElemSpec(old(connections), conn);
        && connections == (if r.Success? then r.value else old(connections))
        && err == (if r.Failure? then Some(r.error) else None)
    {
      var r := SliceUtil.RemoveSwapElemSpec(connections, conn);
      if r.Success? {
        connections := r.value;
        return None;
      }
      return Some(r.error);
    }

    /**
     * `ForAllConnections(block)`: the connections `block` is started on, once each,
     * in holder order. The `go` in front of each call is dropped.
     */
    method ForAllConnections() returns (visited: seq<C>)
      ensures visited == connections
    {
      visited := [];
      for i := 0 to |connections|
        invariant visited == connections[..i]
      {
        visited := visited + [connections[i]];
      }
    }
  }

  /** Every holder in `holders` is its own object and stores the user's connections. */
  ghost predicate HoldersStore<C>(holders: map<string, UserWsConnections<C>>, users: map<string, seq<C>>)
    reads holders.Values
  {
    && holders.Keys == users.Keys
    && (forall id :: id in holders ==> holders[id].connections == users[id])
    && (forall id1, id2 :: id1 in holders && id2 in holders && id1 != id2 ==> holders[id1] != holders[id2])
  }

  class WSConnections<C(==)> {
    var connections: map<string, UserWsConnections<C>>
    /** The connections of each user, as the holders store them. */
    ghost var users: map<string, seq<C>>

    ghost predicate Valid()
      reads this, connections.Values
    {
      HoldersStore(connections, users)
    }

    /** `NewWSConnections`: no users. */
    constructor ()
      ensures Valid() && users == map[]
    {
      connections := map[];
      users := map[];
    }

    /** The lookup-or-create step of `AddConnection`: the user's holder, created empty when there was none. */
    method HolderFor(id: string) returns (holder: UserWsConnections<C>)
      requires Valid()
      modifies this
      ensures Valid()
      ensures id in connections && holder == connections[id]
      ensures id in old(connections) ==> holder == old(connections)[id]
      ensures id !in old(connections) ==> fresh(holder)
      ensures users == old(users)[id := ConnectionServer.ListOf(old(users), id)]
    {
      if id in connections {
        return connections[id];
      }
      holder := new UserWsConnections();
      connections := connections[id := holder];
      users := users[id := []];
    }

    /** The append step of `AddConnection`, on the holder filed under `id`. */
    method AppendTo(id: string, holder: UserWsConnections<C>, conn: C)
      requires Valid() && id in connections && holder == connections[id]
      modifies this, holder
      ensures Valid() && connections == old(connections)
      ensures users == old(users)[id := old(users)[id] + [conn]]
    {
      holder.AddConnection(conn);
      users := users[id := holder.connections];
      forall x | x in connections && x != id
        ensures connections[x].connections == users[x]
      {
        assert connections[x] != holder;
      }
    }

    /**
     * `AddConnection(id, conn)`: creates the user's holder when there is none, then
     * appends `conn` to it. No other user is affected.
     */
    method AddConnection(id: string, conn: C)
      requires Valid()
      modifies this, connections.Values
      ensures Valid()
      ensures users == old(users)[id := ConnectionServer.ListOf(old(users), id) + [conn]]
    {
      ghost var before := users;
      var userConns := HolderFor(id);
      AppendTo(id, userConns, conn);
      ConnectionServer.RefileList(before, id, ConnectionServer.ListOf(before, id), ConnectionServer.ListOf(before, id) + [conn]);
    }

    /**
     * `RemoveConnection(id, conn)`: an unknown id is reported; otherwise the user's
     * holder swap-removes `conn` and its error is returned. The holder stays in the
     * map even when it is left empty.
     */
    method RemoveConnection(id: string, conn: C) returns (err: Option<RegistryError>)
      requires Valid()
      modifies this, connections.Values
      ensures Valid()
      ensures connections.Keys == old(connections.Keys)
      ensures id !in old(users) ==>
        err == Some(NoConnections(WSError(ConnectionServer.NoConnectionsMsg(id)))) && users == old(users)
      ensures id in old(users) ==>
        var r := SliceUtil.RemoveSwapElemSpec(old(users)[id], conn);
        && users == old(users)[id := if r.Success? then r.value else old(users)[id]]
        && err == (if r.Failure? then Some(Removal(r.error)) else None)
    {
      if id !in connections {
        return Some(NoConnections(WSError(ConnectionServer.NoConnectionsMsg(id))));
      }
      var userConns := connections[id];
      var removeErr := userConns.RemoveConnection(conn);
      users := users[id := userConns.connections];
      forall x | x in connections && x != id
        ensures connections[x].connections == users[x]
      {
        assert connections[x] != userConns;
      }
      err := if removeErr.Some? then Some(Removal(removeErr.value)) else None;
    }

    /**
     * `SendMessage(id, msgData, msgType)`: an unknown id is reported; otherwise the
     * block runs once per connection of the user, skipping those in `done` and
     * putting `{msgType, msgData}` on the write pump of the rest, and nil is returned.
     */
    method SendMessage(id: string, msgData: seq<byte>, msgType: int, done: set<C>)
      returns (err: Option<WSError>, enqueued: seq<(C, WsMessage)>)
      requires Valid()
      ensures id !in users ==> err == Some(WSError(ConnectionServer.NoConnectionsMsg(id))) && enqueued == []
      ensures id in users ==>
        err == None && enqueued == ConnectionServer.Deliveries(users[id], done, WsMessage(msgType, msgData))
    {
      if id !in connections {
        return Some(WSError(ConnectionServer.NoConnectionsMsg(id))), [];
      }
      var visited := connections[id].ForAllConnections();
      var msg := WsMessage(msgType, msgData);
      enqueued := [];
      for i := 0 to |visited|
        invariant enqueued == ConnectionServer.Deliveries(visited[..i], done, msg)
      {
        assert visited[..i + 1][..i] == visited[..i];
        if visited[i] !in done {
          enqueued := enqueued + [(visited[i], msg)];
        }
      }
      assert visited[..|visited|] == visited;
      err := None;
    }

    /** `SendTextMessage(id, msg)`: the UTF-8 bytes of `msg` as a text frame. */
    method SendTextMessage(id: string, msg: string, done: set<C>)
      returns (err: Option<WSError>, enqueued: seq<(C, WsMessage)>)
      requires Valid()
      ensures id !in users ==> err == Some(WSError(ConnectionServer.NoConnectionsMsg(id))) && enqueued == []
      ensures id in users ==>
        err == None && enqueued == ConnectionServer.Deliveries(users[id], done, WsMessage(TextMessage, Encode(msg)))
    {
      err, enqueued := SendMessage(id, Encode(msg), TextMessage, done);
    }

    /** `SendBinaryMessage(id, msg)`: the bytes `msg` as a binary frame. */
    method SendBinaryMessage(id: string, msg: seq<byte>, done: set<C>)
      returns (err: Option<WSError>, enqueued: seq<(C, WsMessage)>)
      requires Valid()
      ensures id !in users ==> err == Some(WSError(ConnectionServer.NoConnectionsMsg(id))) && enqueued == []
      ensures id in users ==>
        err == None && enqueued == ConnectionServer.Deliveries(users[id], done, WsMessage(BinaryMessage, msg))
    {
      err, enqueued := SendMessage(id, msg, BinaryMessage, done);
    }
  }
}
