/**
 * Membership of the Redis cluster as seen through Consul, `ConsulAgent`
 * (services/connection-service/notifications/redis_bus/clustered/discovery.go).
 *
 * Each answer of the Consul watch is a list of service entries; the agent turns it
 * into the set of nodes it names, diffs that against the previous set, and sends
 * the difference on its `events` channel. The channel is a log of the events sent
 * and a closed flag; the watch plan is a `WatchPlan` object with a stopped flag.
 * Parsing the query and running the plan against Consul are left to the caller.
 */
module ClusterDiscovery {
  import opened Wrappers
  import SliceUtil

  /** `RedisNode`: nodes are equal only when id, host and port all agree. */
  datatype RedisNode = RedisNode(nodeId: string, nodeHost: string, nodePort: int)

  /** `RedisClusterEvent`: the nodes that appeared and the nodes that went away. */
  datatype RedisClusterEvent = RedisClusterEvent(added: set<RedisNode>, removed: set<RedisNode>)

  /** The fields of a Consul `ServiceEntry` the agent reads: `Node.Node`, `Node.Address`, `Service.Port`. */
  datatype ServiceEntry = ServiceEntry(node: string, address: string, servicePort: int)

  /** What the watch hands its handler: a list of service entries, or a result of another type. */
  datatype WatchResult = ServiceEntries(entries: seq<ServiceEntry>) | OtherResult

  /** `%d` of a Go `int`. */
  function SignedDecimal(i: int): string
  {
    if i < 0 then "-" + SliceUtil.DecimalString(-i) else SliceUtil.DecimalString(i)
  }

  /** `fmt.Sprintf("%s:%d", host, port)`. */
  function Address(host: string, port: int): string
  {
    host + ":" + SignedDecimal(port)
  }

  /** The node one entry describes. */
  function NodeOf(e: ServiceEntry): RedisNode
  {
    RedisNode(e.node, e.address, e.servicePort)
  }

  /** The set of nodes a list of entries describes. */
  ghost function NodesOf(entries: seq<ServiceEntry>): set<RedisNode>
  {
    set i | 0 <= i < |entries| :: NodeOf(entries[i])
  }

  /** Repeated entries collapse: an entry already listed adds no node, and there are never more nodes than entries. */
  lemma {:induction false} NodesOfCollapses(entries: seq<ServiceEntry>, e: ServiceEntry)
    ensures e in entries ==> NodesOf(entries + [e]) == NodesOf(entries)
    ensures NodesOf(entries + [e]) == NodesOf(entries) + {NodeOf(e)}
    ensures |NodesOf(entries)| <= |entries|
  {
    var ext := entries + [e];
    assert forall i :: 0 <= i < |entries| ==> ext[i] == entries[i];
    assert ext[|entries|] == e;
    assert NodesOf(ext) == NodesOf(entries) + {NodeOf(e)};
    if e in entries {
      var k :| 0 <= k < |entries| && entries[k] == e;
      assert NodeOf(e) in NodesOf(entries);
    }
    NodesOfBound(entries);
  }

  lemma {:induction false} NodesOfBound(entries: seq<ServiceEntry>)
    ensures |NodesOf(entries)| <= |entries|
  {
    if entries != [] {
      var init := entries[..|entries| - 1];
      NodesOfBound(init);
      assert entries == init + [entries[|entries| - 1]];
      var ext := entries;
      assert NodesOf(ext) <= NodesOf(init) + {NodeOf(entries[|entries| - 1])} by {
        forall n | n in NodesOf(ext) ensures n in NodesOf(init) + {NodeOf(entries[|entries| - 1])} {
          var i :| 0 <= i < |ext| && NodeOf(ext[i]) == n;
          if i < |init| {
            assert init[i] == ext[i];
          }
        }
      }
      SetSizeBound(NodesOf(ext), NodesOf(init) + {NodeOf(entries[|entries| - 1])});
    }
  }

  lemma SetSizeBound<T>(a: set<T>, b: set<T>)
    requires a <= b
    ensures |a| <= |b|
  {
    assert b == a + (b - a);
  }

  /** The event `updateNodes` reports when the node set goes from `before` to `after`. */
  function Diff(before: set<RedisNode>, after: set<RedisNode>): (ev: RedisClusterEvent)
    ensures forall n :: n in ev.added <==> n in after && n !in before
    ensures forall n :: n in ev.removed <==> n in before && n !in after
  {
    RedisClusterEvent(after - before, before - after)
  }

  /** What a consumer of the events does with one: drop what went away, take what appeared. */
  function Apply(nodes: set<RedisNode>, ev: RedisClusterEvent): set<RedisNode>
  {
    (nodes - ev.removed) + ev.added
  }

  /** A diff never both adds and removes a node, and applying it to the old set gives the new one. */
  lemma DiffApplies(before: set<RedisNode>, after: set<RedisNode>)
    ensures Diff(before, after).added !! Diff(before, after).removed
    ensures Apply(before, Diff(before, after)) == after
    ensures before == after <==> Diff(before, after) == RedisClusterEvent({}, {})
  {
    if before != after {
      if n :| n in before && n !in after {
        assert n in Diff(before, after).removed;
      } else {
        var n :| n in after && n !in before;
        assert n in Diff(before, after).added;
      }
    }
  }

  /** A node whose host or port changes under the same id is reported twice: its old value removed, its new value added. */
  lemma MovedNodeInBoth(before: set<RedisNode>, after: set<RedisNode>, was: RedisNode, now: RedisNode)
    requires was in before && was !in after && now in after && now !in before
    requires was.nodeId == now.nodeId && (was.nodeHost != now.nodeHost || was.nodePort != now.nodePort)
    ensures was in Diff(before, after).removed && now in Diff(before, after).added
    ensures was != now
  {
  }

  /** The state a consumer rebuilds by applying `events` in order to the empty set. */
  function Replay(events: seq<RedisClusterEvent>): set<RedisNode>
  {
    if events == [] then {} else Apply(Replay(events[..|events| - 1]), events[|events| - 1])
  }

  /** A watch plan, which can be stopped. */
  class WatchPlan {
    var stopped: bool

    constructor ()
      ensures !stopped
    {
      stopped := false;
    }
  }

  class ConsulAgent {
    const address: string
    const serviceName: string
    var plan: Option<WatchPlan>
    var nodes: set<RedisNode>
    /** The events sent on `events`, in order. */
    var events: seq<RedisClusterEvent>
    var eventsClosed: bool

    /** While the channel is open, replaying the events that were sent gives the current node set. */
    ghost predicate Valid()
      reads this
    {
      !eventsClosed ==> Replay(events) == nodes
    }

    /** `NewConsul(config)`: the Consul address, the service to watch, no nodes, an open channel and no plan yet. */
    constructor (host: string, port: int, redisServiceName: string)
      ensures Valid()
      ensures address == Address(host, port) && serviceName == redisServiceName
      ensures plan == None && nodes == {} && events == [] && !eventsClosed
    {
      address := Address(host, port);
      serviceName := redisServiceName;
      plan := None;
      nodes := {};
      events := [];
      eventsClosed := false;
    }

    /** `Start()` once the query is parsed: the plan is installed; if running it fails, the agent closes. */
    method Start(runFails: bool)
      requires Valid()
      modifies this
      ensures Valid() && plan.Some? && fresh(plan.value)
      ensures plan.value.stopped == (runFails && !old(eventsClosed)) && eventsClosed == (old(eventsClosed) || runFails)
      ensures nodes == old(nodes) && events == old(events)
    {
      var p := new WatchPlan();
      plan := Some(p);
      if runFails {
        Close();
      }
    }

    /** The node set a list of entries describes, built entry by entry as `updateNodes` does. */
    static method CollectNodes(msg: seq<ServiceEntry>) returns (newNodes: set<RedisNode>)
      ensures newNodes == NodesOf(msg)
      ensures |newNodes| <= |msg|
    {
      newNodes := {};
      for i := 0 to |msg|
        invariant newNodes == NodesOf(msg[..i])
      {
        NodesOfCollapses(msg[..i], msg[i]);
        assert msg[..i + 1] == msg[..i] + [msg[i]];
        newNodes := newNodes + {NodeOf(msg[i])};
      }
      assert msg[..|msg|] == msg;
      NodesOfBound(msg);
    }

    /** `updateNodes(msg)`: the stored set becomes the nodes of `msg`, and the change is returned. */
    method UpdateNodes(msg: seq<ServiceEntry>) returns (ev: RedisClusterEvent)
      modifies this
      ensures nodes == NodesOf(msg) && ev == Diff(old(nodes), nodes)
      ensures plan == old(plan) && events == old(events) && eventsClosed == old(eventsClosed)
    {
      var newNodes := CollectNodes(msg);
      ev := RedisClusterEvent(newNodes - nodes, nodes - newNodes);
      nodes := newNodes;
    }

    /**
     * The plan's handler on one result: a list of entries updates the nodes and sends
     * exactly one event, even an empty one; any other result does nothing. Sending on
     * a closed channel panics in Go: the nodes are then updated but nothing is sent,
     * and `panicked` reports it.
     */
    method HandleResult(result: WatchResult) returns (panicked: bool)
      requires Valid()
      modifies this
      ensures Valid() && plan == old(plan) && eventsClosed == old(eventsClosed)
      ensures result.OtherResult? ==> !panicked && nodes == old(nodes) && events == old(events)
      ensures result.ServiceEntries? ==> nodes == NodesOf(result.entries)
      ensures result.ServiceEntries? && !eventsClosed ==>
        !panicked && events == old(events) + [Diff(old(nodes), nodes)]
      ensures result.ServiceEntries? && eventsClosed ==> panicked && events == old(events)
    {
      match result {
        case OtherResult =>
          return false;
        case ServiceEntries(msg) =>
          var ev := UpdateNodes(msg);
          if eventsClosed {
            return true;
          }
          DiffApplies(old(nodes), nodes);
          events := events + [ev];
          assert events[..|events| - 1] == old(events);
          return false;
      }
    }

    /**
     * `Close()`: the first call closes the channel and stops a plan that is running;
     * a later call finds the channel closed and returns at once.
     */
    method Close()
      requires Valid()
      modifies this, if plan.Some? then {plan.value} else {}
      ensures Valid() && eventsClosed
      ensures nodes == old(nodes) && events == old(events) && plan == old(plan)
      ensures old(eventsClosed) ==> plan.None? || plan.value.stopped == old(plan.value.stopped)
      ensures !old(eventsClosed) ==> plan.None? || plan.value.stopped
    {
      if eventsClosed {
        return;
      }
      eventsClosed := true;
      if plan.Some? && !plan.value.stopped {
        plan.value.stopped := true;
      }
    }
  }

  /** An agent that has seen two snapshots reports the move of a node as one removal and one addition. */
  method MovedNodeScenario() returns (agent: ConsulAgent)
    ensures agent.events == [
      RedisClusterEvent({RedisNode("a", "10.0.0.1", 6379)}, {}),
      RedisClusterEvent({RedisNode("a", "10.0.0.2", 6379)}, {RedisNode("a", "10.0.0.1", 6379)})]
    ensures agent.nodes == {RedisNode("a", "10.0.0.2", 6379)}
  {
    agent := new ConsulAgent("consul", 8500, "redis");
    var p1 := agent.HandleResult(ServiceEntries([ServiceEntry("a", "10.0.0.1", 6379)]));
    assert NodesOf([ServiceEntry("a", "10.0.0.1", 6379)]) == {RedisNode("a", "10.0.0.1", 6379)} by {
      assert NodeOf([ServiceEntry("a", "10.0.0.1", 6379)][0]) == RedisNode("a", "10.0.0.1", 6379);
    }
    var p2 := agent.HandleResult(ServiceEntries([ServiceEntry("a", "10.0.0.2", 6379), ServiceEntry("a", "10.0.0.2", 6379)]));
    var second := [ServiceEntry("a", "10.0.0.2", 6379), ServiceEntry("a", "10.0.0.2", 6379)];
    assert NodesOf(second) == {RedisNode("a", "10.0.0.2", 6379)} by {
      assert NodeOf(second[0]) == RedisNode("a", "10.0.0.2", 6379);
    }
    var n1, n2 := RedisNode("a", "10.0.0.1", 6379), RedisNode("a", "10.0.0.2", 6379);
    assert {n1} - {} == {n1} && {} - {n1} == {};
    assert {n2} - {n1} == {n2} && {n1} - {n2} == {n1};
  }
}
