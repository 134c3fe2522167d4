/**
 * The per-user connection holder `userWsConnections` (websocket/userconns.go).
 *
 * A holder is live until a removal leaves it empty; from then on it is destroyed
 * for good: additions are refused with `DestroyedUConnUsageError`, so that a
 * registry about to evict it never sees it resurrected. The holder's lock is
 * dropped; the callback given to `ForAllConnections` is not run here, the method
 * returns the connections it is invoked on.
 */
module UserConns {
  import opened Wrappers
  import SliceUtil

  /** `DestroyedUConnUsageError{msg}`. */
  datatype DestroyedUConnUsageError = DestroyedUConnUsageError(msg: string)

  const AddToDestroyedMsg: string := "Tying to add connection to destroyed holder"
  const IterateDestroyedMsg: string := "Trying to run function over destroyed connections holder"

  class UserWsConnections<C(==)> {
    var connections: seq<C>
    var destroyed: bool

    /** A destroyed holder is empty. */
    ghost predicate Valid()
      reads this
    {
      destroyed ==> connections == []
    }

    /** `newUserWsConnections` (and `newSingleUserWsConnection`): empty and live. */
    constructor ()
      ensures Valid() && connections == [] && !destroyed
    {
      connections := [];
      destroyed := false;
    }

    /**
     * `AddConnection(conn)`: a destroyed holder refuses and is left as it was; a live
     * one appends `conn` at the end, with no check for duplicates.
     */
    method AddConnection(conn: C) returns (err: Option<DestroyedUConnUsageError>)
      requires Valid()
      modifies this
      ensures Valid() && destroyed == old(destroyed)
      ensures old(destroyed) ==> err == Some(DestroyedUConnUsageError(AddToDestroyedMsg)) && connections == old(connections)
      ensures !old(destroyed) ==> err == None && connections == old(connections) + [conn]
    {
      if destroyed {
        return Some(DestroyedUConnUsageError(AddToDestroyedMsg));
      }
      connections := connections + [conn];
      return None;
    }

    /**
     * `RemoveConnection(conn)`: swap-removes `conn` (the removal error when it is absent
     * is passed on); the holder becomes destroyed whenever it is empty afterwards, even
     * after a failed removal from an empty holder, and the flag is returned.
     */
    method RemoveConnection(conn: C) returns (isDestroyed: bool, err: Option<SliceUtil.RemovalError>)
      requires Valid()
      modifies this
      ensures Valid()
      ensures var r := SliceUtil.RemoveSwapElemSpec(old(connections), conn);
        && connections == (if r.Success? then r.value else old(connections))
        && err == (if r.Failure? then Some(r.error) else None)
      ensures destroyed <==> old(destroyed) || connections == []
      ensures isDestroyed == destroyed
    {
      var r := SliceUtil.RemoveSwapElemSpec(connections, conn);
      if r.Success? {
        connections := r.value;
        err := None;
      } else {
        err := Some(r.error);
      }
      if |connections| == 0 {
        destroyed := true;
      }
      isDestroyed := destroyed;
    }

    /**
     * `ForAllConnections(block)`: a destroyed holder reports an error and invokes
     * `block` on nothing; otherwise `block` is invoked once per connection, in order.
     */
    method ForAllConnections() returns (err: Option<DestroyedUConnUsageError>, visited: seq<C>)
      ensures destroyed ==> err == Some(DestroyedUConnUsageError(IterateDestroyedMsg)) && visited == []
      ensures !destroyed ==> err == None && visited == connections
    {
      if destroyed {
        return Some(DestroyedUConnUsageError(IterateDestroyedMsg)), [];
      }
      visited := [];
      for i := 0 to |connections|
        invariant visited == connections[..i]
      {
        visited := visited + [connections[i]];
      }
      err := None;
    }
  }
}
