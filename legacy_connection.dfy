/**
 * The first registry snapshot, `WSConnections` over `*WSConnection`
 * (websocket/connection.go).
 *
 * Here a connection writes to its socket directly and has no write pump: a
 * broadcast calls `WriteMessage` on every connection of the user and collects the
 * failures. The reader goroutine forwards each frame to `onMessageReceived` and,
 * on the first read error, marks the connection closed and calls
 * `onConnectionClosed`. Callbacks are represented by whether one is installed
 * (Go's non-nil), and each invocation is recorded on the connection. The socket's
 * answers (read results, write errors) are inputs.
 */
module LegacyConnection {
  import opened Wrappers
  import SliceUtil
  import opened Utf8
  import opened ServiceConnection
  import ConnectionServer

  /** `WSError{msg}`. */
  datatype WSError = WSError(msg: string)

  /** The errors the registry returns: its own, the holder's removal error, or a socket's write error. */
  datatype RegistryError =
    | NoConnections(wsError: WSError)
    | Removal(removal: SliceUtil.RemovalError)
    | WriteFailed(writeError: SocketError)

  /** The error of the first failing read in `results`, if any read fails. */
  function FirstReadError(results: seq<ReadResult>): (r: Option<SocketError>)
    ensures r.Some? <==> SomeReadFails(results)
    ensures r.Some? ==> exists k :: 0 <= k < |results| && results[k] == ReadFailed(r.value)
  {
    ForwardedFramesInOrder(results);
    var f := ForwardedFrames(results);
    if |f| < |results| then Some(results[|f|].error) else None
  }

  /** The read at `i` either fails, forwarding nothing more and giving the first error, or forwards one frame. */
  lemma ReadAt(results: seq<ReadResult>, i: nat)
    requires i < |results|
    ensures results[i].ReadFailed? ==>
      ForwardedFrames(results[i..]) == [] && FirstReadError(results[i..]) == Some(results[i].error)
    ensures results[i].Frame? ==>
      && ForwardedFrames(results[i..]) == [WsMessage(results[i].msgType, results[i].data)] + ForwardedFrames(results[i + 1..])
      && FirstReadError(results[i..]) == FirstReadError(results[i + 1..])
  {
    assert results[i..][0] == results[i] && results[i..][1..] == results[i + 1..];
  }

  /** `WSConnection`: the socket, the `closed` flag, and the two callbacks. */
  class WSConnection {
    var closed: bool
    const onMessageReceived: bool
    const onConnectionClosed: bool
    /** Every `onMessageReceived` invocation so far. */
    var received: seq<WsMessage>
    /** Every `onConnectionClosed` invocation so far, with the read error it was given. */
    var closeNotices: seq<SocketError>

    /** `NewWsConnection` before its reader runs: open, nothing received, nothing reported. */
    constructor (onMessageReceived: bool, onConnectionClosed: bool)
      ensures !closed && received == [] && closeNotices == []
      ensures this.onMessageReceived == onMessageReceived && this.onConnectionClosed == onConnectionClosed
    {
      closed := false;
      this.onMessageReceived, this.onConnectionClosed := onMessageReceived, onConnectionClosed;
      received, closeNotices := [], [];
    }

    /**
     * `startMessageReader`'s loop over the answers `results` of successive
     * `ReadMessage` calls: each frame goes to `onMessageReceived`, in read order, up
     * to the first failure; that failure sets `closed`, is reported once to
     * `onConnectionClosed`, and ends the loop.
     */
    method RunMessageReader(results: seq<ReadResult>)
      modifies this
      ensures received == old(received) + (if onMessageReceived then ForwardedFrames(results) else [])
      ensures closed <==> old(closed) || SomeReadFails(results)
      ensures closeNotices == old(closeNotices) +
        (if onConnectionClosed && SomeReadFails(results) then [FirstReadError(results).value] else [])
    {
      var i := 0;
      while i < |results|
        invariant 0 <= i <= |results|
        invariant closed == old(closed) && closeNotices == old(closeNotices)
        invariant received + (if onMessageReceived then ForwardedFrames(results[i..]) else [])
          == old(received) + (if onMessageReceived then ForwardedFrames(results) else [])
        invariant FirstReadError(results[i..]) == FirstReadError(results)
      {
        ReadAt(results, i);
        match results[i] {
          case ReadFailed(e) =>
            closed := true;
            if onConnectionClosed {
              closeNotices := closeNotices + [e];
            }
            return;
          case Frame(t, d) =>
            if onMessageReceived {
              received := received + [WsMessage(t, d)];
            }
        }
        i := i + 1;
      }
      assert results[i..] == [];
    }
  }

  /** The errors a broadcast collects: one per connection whose write fails, in holder order. */
  function WriteErrors(conns: seq<WSConnection>, failures: map<WSConnection, SocketError>): (r: seq<RegistryError>)
    ensures |r| <= |conns|
  {
    if conns == [] then []
    else
      var last := conns[|conns| - 1];
      WriteErrors(conns[..|conns| - 1], failures) + (if last in failures then [WriteFailed(failures[last])] else [])
  }

  /** The errors of a longer holder list extend those of its prefix: they come in holder order. */
  lemma {:induction false} WriteErrorsAppend(a: seq<WSConnection>, b: seq<WSConnection>, failures: map<WSConnection, SocketError>)
    ensures WriteErrors(a + b, failures) == WriteErrors(a, failures) + WriteErrors(b, failures)
    decreases |b|
  {
    if b == [] {
      assert a + b == a;
    } else {
      var init := b[..|b| - 1];
      assert (a + b)[..|a + b| - 1] == a + init;
      WriteErrorsAppend(a, init, failures);
    }
  }

  /** A broadcast reports nothing exactly when every write succeeds. */
  lemma {:induction false} WriteErrorsNone(conns: seq<WSConnection>, failures: map<WSConnection, SocketError>)
    ensures WriteErrors(conns, failures) == [] <==> forall i :: 0 <= i < |conns| ==> conns[i] !in failures
  {
    if conns != [] {
      var init := conns[..|conns| - 1];
      WriteErrorsNone(init, failures);
      assert forall i :: 0 <= i < |init| ==> init[i] == conns[i];
    }
  }

  /** Each error a broadcast reports is some failing write's own. */
  lemma {:induction false} WriteErrorsFrom(conns: seq<WSConnection>, failures: map<WSConnection, SocketError>)
    ensures forall e :: e in WriteErrors(conns, failures) ==>
      exists i :: 0 <= i < |conns| && conns[i] in failures && e == WriteFailed(failures[conns[i]])
  {
    if conns != [] {
      var init, last := conns[..|conns| - 1], conns[|conns| - 1];
      WriteErrorsFrom(init, failures);
      forall e | e in WriteErrors(conns, failures)
        ensures exists i :: 0 <= i < |conns| && conns[i] in failures && e == WriteFailed(failures[conns[i]])
      {
        if e in WriteErrors(init, failures) {
          var i :| 0 <= i < |init| && init[i] in failures && e == WriteFailed(failures[init[i]]);
          assert conns[i] == init[i];
        } else {
          assert conns[|conns| - 1] == last;
        }
      }
    }
  }

  /** `userWsConnections`: the connections of one user. */
  class UserWsConnections {
    var connections: seq<WSConnection>

    /** `newUserWsSessions(initialCapacity)`: empty, whatever the capacity. */
    constructor ()
      ensures connections == []
    {
      connections := [];
    }

    /** `AddConnection(conn)`: appends, with no check for duplicates. */
    method AddConnection(conn: WSConnection)
      modifies this
      ensures connections == old(connections) + [conn]
    {
      connections := connections + [conn];
    }

    /** `RemoveConnection(conn)`: swap-removes the first occurrence of `conn`, or reports it missing. */
    method RemoveConnection(conn: WSConnection) returns (err: Option<SliceUtil.RemovalError>)
      modifies this
      ensures var r := SliceUtil.RemoveSwapElemSpec(old(connections), conn);
        && connections == (if r.Success? then r.value else old(connections))
        && err == (if r.Failure? then Some(r.error) else None)
    {
      var r := SliceUtil.RemoveSwapElemSpec(connections, conn);
      if r.Success? {
        connections := r.value;
        return None;
      }
      return Some(r.error);
    }

    /**
     * `ForAllConnections(block)` with `block` writing one frame: the block runs on
     * every connection, in holder order (`visited`), and the errors of the writes
     * that fail (those in `failures`) are collected in that order.
     */
    method ForAllConnections(failures: map<WSConnection, SocketError>)
      returns (errors: seq<RegistryError>, visited: seq<WSConnection>)
      ensures visited == connections
      ensures errors == WriteErrors(connections, failures)
    {
      errors, visited := [], [];
      for i := 0 to |connections|
        invariant visited == connections[..i]
        invariant errors == WriteErrors(connections[..i], failures)
      {
        assert connections[..i + 1][..i] == connections[..i];
        var connection := connections[i];
        visited := visited + [connection];
        if connection in failures {
          errors := errors + [WriteFailed(failures[connection])];
        }
      }
      assert connections[..|connections|] == connections;
    }
  }

  /** Every holder in `holders` is its own object and stores the user's connections. */
  ghost predicate HoldersStore(holders: map<string, UserWsConnections>, users: map<string, seq<WSConnection>>)
    reads holders.Values
  {
    && holders.Keys == users.Keys
    && (forall id :: id in holders ==> holders[id].connections == users[id])
    && (forall id1, id2 :: id1 in holders && id2 in holders && id1 != id2 ==> holders[id1] != holders[id2])
  }

  class WSConnections {
    var connections: map<string, UserWsConnections>
    /** The connections of each user, as the holders store them. */
    ghost var users: map<string, seq<WSConnection>>

    ghost predicate Valid()
      reads this, connections.Values
    {
      HoldersStore(connections, users)
    }

    /** `NewWSConnections`: no users. */
    constructor ()
      ensures Valid() && users == map[]
    {
      connections := map[];
      users := map[];
    }

    /** The lookup-or-create step of `AddConnection`: the user's holder, created empty when there was none. */
    method HolderFor(id: string) returns (holder: UserWsConnections)
      requires Valid()
      modifies this
      ensures Valid()
      ensures id in connections && holder == connections[id]
      ensures id in old(connections) ==> holder == old(connections)[id]
      ensures id !in old(connections) ==> fresh(holder)
      ensures users == old(users)[id := ConnectionServer.ListOf(old(users), id)]
    {
      if id in connections {
        return connections[id];
      }
      holder := new UserWsConnections();
      connections := connections[id := holder];
      users := users[id := []];
    }

    /** The append step of `AddConnection`, on the holder filed under `id`. */
    method AppendTo(id: string, holder: UserWsConnections, conn: WSConnection)
      requires Valid() && id in connections && holder == connections[id]
      modifies this, holder
      ensures Valid() && connections == old(connections)
      ensures users == old(users)[id := old(users)[id] + [conn]]
    {
      holder.AddConnection(conn);
      users := users[id := holder.connections];
      forall x | x in connections && x != id
        ensures connections[x].connections == users[x]
      {
        assert connections[x] != holder;
      }
    }

    /**
     * `AddConnection(id, conn)`: a connection already closed by its reader is
     * ignored; otherwise the user's holder is created when there is none, and `conn`
     * is appended to it.
     */
    method AddConnection(id: string, conn: WSConnection)
      requires Valid()
      modifies this, connections.Values
      ensures Valid()
      ensures old(conn.closed) ==> users == old(users) && connections == old(connections)
      ensures !old(conn.closed) ==> users == old(users)[id := ConnectionServer.ListOf(old(users), id) + [conn]]
    {
      if conn.closed {
        return;
      }
      ghost var before := users;
      var userConns := HolderFor(id);
      AppendTo(id, userConns, conn);
      ConnectionServer.RefileList(before, id, ConnectionServer.ListOf(before, id), ConnectionServer.ListOf(before, id) + [conn]);
    }

    /**
     * `RemoveConnection(id, conn)`: an unknown id is reported; otherwise the user's
     * holder swap-removes `conn` and its error is returned. The holder stays in the
     * map even when it is left empty.
     */
    method RemoveConnection(id: string, conn: WSConnection) returns (err: Option<RegistryError>)
      requires Valid()
      modifies this, connections.Values
      ensures Valid()
      ensures connections.Keys == old(connections.Keys)
      ensures id !in old(users) ==>
        err == Some(NoConnections(WSError(ConnectionServer.NoConnectionsMsg(id)))) && users == old(users)
      ensures id in old(users) ==>
        var r := SliceUtil.RemoveSwapElemSpec(old(users)[id], conn);
        && users == old(users)[id := if r.Success? then r.value else old(users)[id]]
        && err == (if r.Failure? then Some(Removal(r.error)) else None)
    {
      if id !in connections {
        return Some(NoConnections(WSError(ConnectionServer.NoConnectionsMsg(id))));
      }
      var userConns := connections[id];
      var removeErr := userConns.RemoveConnection(conn);
      users := users[id := userConns.connections];
      forall x | x in connections && x != id
        ensures connections[x].connections == users[x]
      {
        assert connections[x] != userConns;
      }
      err := if removeErr.Some? then Some(Removal(removeErr.value)) else None;
    }

    /**
     * `SendMessage(id, msg, messageType)`: an unknown id gives a one-element error
     * list; otherwise every connection of the user is written `{messageType, msg}`
     * (`written`, in holder order) and the failures' errors come back in that order.
     */
    method SendMessage(id: string, msg: seq<byte>, messageType: int, failures: map<WSConnection, SocketError>)
      returns (errors: seq<RegistryError>, written: seq<(WSConnection, WsMessage)>)
      requires Valid()
      ensures id !in users ==> errors == [NoConnections(WSError(ConnectionServer.NoConnectionsMsg(id)))] && written == []
      ensures id in users ==>
        && errors == WriteErrors(users[id], failures)
        && |written| == |users[id]|
        && forall i :: 0 <= i < |written| ==> written[i] == (users[id][i], WsMessage(messageType, msg))
    {
      if id !in connections {
        return [NoConnections(WSError(ConnectionServer.NoConnectionsMsg(id)))], [];
      }
      var visited;
      errors, visited := connections[id].ForAllConnections(failures);
      written := seq(|visited|, i requires 0 <= i < |visited| => (visited[i], WsMessage(messageType, msg)));
    }

    /** `SendTextMessage(id, msg)`: the UTF-8 bytes of `msg` as a text frame. */
    method SendTextMessage(id: string, msg: string, failures: map<WSConnection, SocketError>)
      returns (errors: seq<RegistryError>, written: seq<(WSConnection, WsMessage)>)
      requires Valid()
      ensures id !in users ==> errors == [NoConnections(WSError(ConnectionServer.NoConnectionsMsg(id)))] && written == []
      ensures id in users ==>
        && errors == WriteErrors(users[id], failures)
        && |written| == |users[id]|
        && forall i :: 0 <= i < |written| ==> written[i] == (users[id][i], WsMessage(TextMessage, Encode(msg)))
    {
      errors, written := SendMessage(id, Encode(msg), TextMessage, failures);
    }

    /** `SendBinaryMessage(id, msg)`: the bytes `msg` as a binary frame. */
    method SendBinaryMessage(id: string, msg: seq<byte>, failures: map<WSConnection, SocketError>)
      returns (errors: seq<RegistryError>, written: seq<(WSConnection, WsMessage)>)
      requires Valid()
      ensures id !in users ==> errors == [NoConnections(WSError(ConnectionServer.NoConnectionsMsg(id)))] && written == []
      ensures id in users ==>
        && errors == WriteErrors(users[id], failures)
        && |written| == |users[id]|
        && forall i :: 0 <= i < |written| ==> written[i] == (users[id][i], WsMessage(BinaryMessage, msg))
    {
      errors, written := SendMessage(id, msg, BinaryMessage, failures);
    }
  }
}
