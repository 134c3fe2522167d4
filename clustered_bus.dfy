/**
 * The notification bus over a Redis cluster, `ClusteredRedisNotificationBus`
 * (services/connection-service/notifications/redis_bus/clustered/clustered_redis_notification_bus.go).
 *
 * The bus keeps the topics and patterns it is subscribed to and one single-node
 * bus per live Redis node, keyed by node id. A single-node bus is an immutable
 * `NodeBus` handle fixed when it is made (address, message handler, the id its
 * disconnect handler deletes); every call the cluster bus makes on one is appended,
 * with the handle, to `busCalls`. The `go` in front of those calls is dropped:
 * each is logged where it is issued. Where Go ranges over a set or map, the order
 * met is returned, so that the logged calls can be stated exactly.
 */
module ClusteredBus {
  import opened Wrappers
  import opened Utf8
  import opened SafeMapModel
  import opened ClusterDiscovery

  /** A message handler, known by name: the logging default, or one installed by the service. */
  datatype MessageHandler = LogArrival | Installed(token: nat)

  /** A call on a single-node bus. */
  datatype BusCall =
    | StartBus
    | Subscribe(topic: string)
    | Unsubscribe(topic: string)
    | PatternSubscribe(pattern: string)
    | PatternUnsubscribe(pattern: string)
    | Publish(topic: string, msg: seq<byte>)
    | CloseBus

  /** `single.RedisNotificationBus` as the cluster bus set it up. */
  class NodeBus {
    const host: string
    const port: int
    const handler: MessageHandler
    /** The id the disconnect handler deletes from the cluster. */
    const owner: string

    constructor (host: string, port: int, handler: MessageHandler, owner: string)
      ensures this.host == host && this.port == port && this.handler == handler && this.owner == owner
    {
      this.host, this.port, this.handler, this.owner := host, port, handler, owner;
    }
  }

  /** The same call issued on every bus of `visited`, in that order. */
  function Fanout(visited: seq<(string, NodeBus)>, call: BusCall): (r: seq<(NodeBus, BusCall)>)
    ensures |r| == |visited|
    ensures forall i :: 0 <= i < |r| ==> r[i] == (visited[i].1, call)
  {
    if visited == [] then [] else Fanout(visited[..|visited| - 1], call) + [(visited[|visited| - 1].1, call)]
  }

  /** The subscription replayed for one topic or pattern. */
  function ReplayCall(item: string, pattern: bool): BusCall
  {
    if pattern then PatternSubscribe(item) else Subscribe(item)
  }

  /** The replay of `order` on `bus`, one subscription per item, in that order. */
  function Replays(bus: NodeBus, order: seq<string>, pattern: bool): (r: seq<(NodeBus, BusCall)>)
    ensures |r| == |order|
    ensures forall i :: 0 <= i < |r| ==> r[i] == (bus, ReplayCall(order[i], pattern))
  {
    if order == [] then [] else Replays(bus, order[..|order| - 1], pattern) + [(bus, ReplayCall(order[|order| - 1], pattern))]
  }

  lemma ReplaysAppend(bus: NodeBus, order: seq<string>, item: string, pattern: bool)
    ensures Replays(bus, order + [item], pattern) == Replays(bus, order, pattern) + [(bus, ReplayCall(item, pattern))]
  {
    assert (order + [item])[..|order|] == order;
  }

  /** `order` lists the elements of `items`, each exactly once. */
  ghost predicate Lists(order: seq<string>, items: set<string>)
  {
    && (forall i, j :: 0 <= i < j < |order| ==> order[i] != order[j])
    && (forall x :: x in order <==> x in items)
  }

  /** `order` lists, once each, the elements of `items` not in `remaining`. */
  ghost predicate ListsSoFar(order: seq<string>, items: set<string>, remaining: set<string>)
  {
    && (forall i, j :: 0 <= i < j < |order| ==> order[i] != order[j])
    && (forall x :: x in order <==> x in items && x !in remaining)
  }

  lemma ListsSoFarStep(order: seq<string>, items: set<string>, remaining: set<string>, item: string)
    requires ListsSoFar(order, items, remaining) && item in remaining && remaining <= items
    ensures ListsSoFar(order + [item], items, remaining - {item})
  {
  }

  /** The node ids of a set of nodes. */
  ghost function Ids(nodes: set<RedisNode>): set<string>
  {
    set n | n in nodes :: n.nodeId
  }

  /** Within one snapshot a node id names one node. */
  ghost predicate UniqueIds(nodes: set<RedisNode>)
  {
    forall a, b :: a in nodes && b in nodes && a.nodeId == b.nodeId ==> a == b
  }

  /** The ids left in the cluster after `watcher` applies `ev` as written: every addition, then every removal. */
  ghost function KeysAddsFirst(keys: set<string>, ev: RedisClusterEvent): set<string>
  {
    (keys + Ids(ev.added)) - Ids(ev.removed)
  }

  /** The ids left in the cluster when the removals of `ev` are applied before its additions. */
  ghost function KeysRemovesFirst(keys: set<string>, ev: RedisClusterEvent): set<string>
  {
    (keys - Ids(ev.removed)) + Ids(ev.added)
  }

  /**
   * Applied as written, the move of a node to a new address loses it: the node is
   * in the new snapshot, but its id is no longer in the cluster.
   */
  lemma AddsFirstLosesMovedNode()
    ensures var was, now := RedisNode("a", "10.0.0.1", 6379), RedisNode("a", "10.0.0.2", 6379);
      && Ids({was}) == {"a"} && Ids({now}) == {"a"}
      && KeysAddsFirst(Ids({was}), Diff({was}, {now})) == {}
  {
    var was, now := RedisNode("a", "10.0.0.1", 6379), RedisNode("a", "10.0.0.2", 6379);
    assert was.nodeId == "a" && now.nodeId == "a";
    assert Ids({was}) == {"a"};
    assert Ids({now}) == {"a"};
    assert {now} - {was} == {now} && {was} - {now} == {was};
  }

  /**
   * With removals applied first, a cluster whose ids were those of the old snapshot
   * has exactly the ids of the new one, whatever moved. Each snapshot must name each
   * of its nodes differently: `SharedNodeNameLost` shows what goes wrong otherwise.
   */
  lemma RemovesFirstTracksSnapshot(before: set<RedisNode>, after: set<RedisNode>)
    requires UniqueIds(before) && UniqueIds(after)
    ensures KeysRemovesFirst(Ids(before), Diff(before, after)) == Ids(after)
  {
    var ev := Diff(before, after);
    forall x | x in Ids(after) ensures x in KeysRemovesFirst(Ids(before), ev) {
      var n :| n in after && n.nodeId == x;
      if n in before {
        assert x in Ids(before);
        assert x !in Ids(ev.removed);
      } else {
        assert n in ev.added;
      }
    }
    forall x | x in KeysRemovesFirst(Ids(before), ev) ensures x in Ids(after) {
      if x in Ids(ev.added) {
        var n :| n in ev.added && n.nodeId == x;
        assert n in after;
      } else {
        var m :| m in before && m.nodeId == x;
        assert m !in ev.removed;
        assert m in after;
      }
    }
  }

  /** The ids the watcher leaves after applying `events` in order, removals first. */
  ghost function KeysAfterAll(keys: set<string>, events: seq<RedisClusterEvent>): set<string>
    decreases |events|
  {
    if events == [] then keys else KeysAfterAll(KeysRemovesFirst(keys, events[0]), events[1..])
  }

  /** The events a watch reports for successive snapshots. */
  function Diffs(snapshots: seq<set<RedisNode>>): (r: seq<RedisClusterEvent>)
    requires snapshots != []
    ensures |r| == |snapshots| - 1
  {
    if |snapshots| == 1 then [] else [Diff(snapshots[0], snapshots[1])] + Diffs(snapshots[1..])
  }

  /** Applying the diffs of a run of snapshots, removals first, leaves the ids of the last snapshot. */
  lemma {:induction false} RemovesFirstFollowsRun(snapshots: seq<set<RedisNode>>)
    requires snapshots != []
    requires forall i :: 0 <= i < |snapshots| ==> UniqueIds(snapshots[i])
    ensures KeysAfterAll(Ids(snapshots[0]), Diffs(snapshots)) == Ids(snapshots[|snapshots| - 1])
    decreases |snapshots|
  {
    if |snapshots| > 1 {
      RemovesFirstTracksSnapshot(snapshots[0], snapshots[1]);
      var rest := snapshots[1..];
      assert forall i :: 0 <= i < |rest| ==> UniqueIds(rest[i]) by {
        forall i | 0 <= i < |rest| ensures UniqueIds(rest[i]) {
          assert rest[i] == snapshots[i + 1];
        }
      }
      RemovesFirstFollowsRun(rest);
      var evs := Diffs(snapshots);
      assert evs[0] == Diff(snapshots[0], snapshots[1]) && evs[1..] == Diffs(rest);
    }
  }

  lemma IdsAddOne(nodes: set<RedisNode>, n: RedisNode)
    ensures Ids(nodes + {n}) == Ids(nodes) + {n.nodeId}
  {
    assert n in nodes + {n};
    forall x | x in Ids(nodes + {n}) ensures x in Ids(nodes) + {n.nodeId} {
      var m :| m in nodes + {n} && m.nodeId == x;
      if m != n {
        assert m in nodes;
      }
    }
  }

  lemma IdsEmpty()
    ensures Ids({}) == {}
  {
  }

  /**
   * Two Redis instances registered on one Consul node share its node name. When one
   * of them goes away, removing it by id drops the id of the other, which is still
   * up, even with removals applied first.
   */
  lemma SharedNodeNameLost()
    ensures var kept, gone := RedisNode("a", "10.0.0.1", 6379), RedisNode("a", "10.0.0.1", 6380);
      && !UniqueIds({kept, gone}) && Ids({kept}) == {"a"}
      && KeysRemovesFirst(Ids({kept, gone}), Diff({kept, gone}, {kept})) == {}
  {
    var kept, gone := RedisNode("a", "10.0.0.1", 6379), RedisNode("a", "10.0.0.1", 6380);
    assert kept.nodeId == "a" && gone.nodeId == "a";
    assert Ids({kept}) == {"a"};
    assert Ids({kept, gone}) == {"a"};
    assert {kept} - {kept, gone} == {} && {kept, gone} - {kept} == {gone};
    assert Ids({gone}) == {"a"};
    IdsEmpty();
  }

  /** The entries of `m` whose ids are in `ids`. */
  ghost function Restrict(m: map<string, NodeBus>, ids: set<string>): map<string, NodeBus>
  {
    map id | id in m && id in ids :: m[id]
  }

  lemma RestrictStep(base: map<string, NodeBus>, doneNodes: set<RedisNode>, n: RedisNode)
    ensures Restrict(base, Ids(doneNodes + {n})) ==
      if n.nodeId in base && n.nodeId !in Ids(doneNodes)
      then Restrict(base, Ids(doneNodes))[n.nodeId := base[n.nodeId]]
      else Restrict(base, Ids(doneNodes))
  {
    IdsAddOne(doneNodes, n);
  }

  lemma EnumeratesExtend(visited: seq<(string, NodeBus)>, m: map<string, NodeBus>, id: string, bus: NodeBus)
    requires Enumerates(visited, m) && id !in m
    ensures Enumerates(visited + [(id, bus)], m[id := bus])
  {
    var v := visited + [(id, bus)];
    forall k | k == id || k in m ensures exists i :: 0 <= i < |v| && v[i].0 == k {
      if k == id {
        assert v[|visited|].0 == k;
      } else {
        var i :| 0 <= i < |visited| && visited[i].0 == k;
        assert v[i].0 == k;
      }
    }
  }

  lemma FanoutAppend(visited: seq<(string, NodeBus)>, entry: (string, NodeBus), call: BusCall)
    ensures Fanout(visited + [entry], call) == Fanout(visited, call) + [(entry.1, call)]
  {
    assert (visited + [entry])[..|visited|] == visited;
  }

  /** A call fanned out over an enumeration of `m` reaches the bus of every id of `m`. */
  lemma FanoutReaches(visited: seq<(string, NodeBus)>, m: map<string, NodeBus>, call: BusCall, id: string)
    requires Enumerates(visited, m) && id in m
    ensures (m[id], call) in Fanout(visited, call)
  {
    var i :| 0 <= i < |visited| && visited[i].0 == id;
    assert Fanout(visited, call)[i] == (m[id], call);
  }

  lemma ReplaysCover(bus: NodeBus, order: seq<string>, pattern: bool, item: string)
    requires item in order
    ensures (bus, ReplayCall(item, pattern)) in Replays(bus, order, pattern)
  {
    var i :| 0 <= i < |order| && order[i] == item;
    assert Replays(bus, order, pattern)[i] == (bus, ReplayCall(item, pattern));
  }

  /** `bus` was started and subscribed to every topic of `topics` and every pattern of `patterns`, as `calls` records. */
  ghost predicate ReplayedIn(bus: NodeBus, calls: seq<(NodeBus, BusCall)>, topics: set<string>, patterns: set<string>)
  {
    && (bus, StartBus) in calls
    && (forall t :: t in topics ==> (bus, BusCall.Subscribe(t)) in calls)
    && (forall p :: p in patterns ==> (bus, BusCall.PatternSubscribe(p)) in calls)
  }

  /**
   * Every bus of `cluster` is filed under the id its disconnect handler deletes, and
   * was started and subscribed to every topic and pattern kept, as `calls` records.
   */
  ghost predicate WiredIn(cluster: map<string, NodeBus>, calls: seq<(NodeBus, BusCall)>, topics: set<string>, patterns: set<string>)
  {
    forall id :: id in cluster ==> cluster[id].owner == id && ReplayedIn(cluster[id], calls, topics, patterns)
  }

  lemma ReplayedGrows(bus: NodeBus, calls: seq<(NodeBus, BusCall)>, extra: seq<(NodeBus, BusCall)>, topics: set<string>, patterns: set<string>)
    requires ReplayedIn(bus, calls, topics, patterns)
    ensures ReplayedIn(bus, calls + extra, topics, patterns)
  {
  }

  /** Later calls do not undo the wiring of a bus. */
  lemma WiredGrows(cluster: map<string, NodeBus>, calls: seq<(NodeBus, BusCall)>, extra: seq<(NodeBus, BusCall)>,
                   topics: set<string>, patterns: set<string>)
    requires WiredIn(cluster, calls, topics, patterns)
    ensures WiredIn(cluster, calls + extra, topics, patterns)
  {
    forall id | id in cluster ensures ReplayedIn(cluster[id], calls + extra, topics, patterns) {
      ReplayedGrows(cluster[id], calls, extra, topics, patterns);
    }
  }

  /** Fewer topics and patterns, or fewer buses, keep the cluster wired. */
  lemma WiredNarrows(cluster: map<string, NodeBus>, calls: seq<(NodeBus, BusCall)>, topics: set<string>, patterns: set<string>,
                     gone: set<string>, topics': set<string>, patterns': set<string>)
    requires WiredIn(cluster, calls, topics, patterns) && topics' <= topics && patterns' <= patterns
    ensures WiredIn(cluster - gone, calls, topics', patterns')
  {
  }

  /** A topic subscribed on every bus of the cluster may join the topics kept. */
  lemma WiredSubscribed(cluster: map<string, NodeBus>, calls: seq<(NodeBus, BusCall)>, visited: seq<(string, NodeBus)>,
                        topics: set<string>, patterns: set<string>, topic: string)
    requires WiredIn(cluster, calls, topics, patterns) && Enumerates(visited, cluster)
    ensures WiredIn(cluster, calls + Fanout(visited, BusCall.Subscribe(topic)), topics + {topic}, patterns)
  {
    var extra := Fanout(visited, BusCall.Subscribe(topic));
    forall id | id in cluster ensures ReplayedIn(cluster[id], calls + extra, topics + {topic}, patterns) {
      ReplayedGrows(cluster[id], calls, extra, topics, patterns);
      FanoutReaches(visited, cluster, BusCall.Subscribe(topic), id);
    }
  }

  /** A pattern subscribed on every bus of the cluster may join the patterns kept. */
  lemma WiredPatternSubscribed(cluster: map<string, NodeBus>, calls: seq<(NodeBus, BusCall)>, visited: seq<(string, NodeBus)>,
                               topics: set<string>, patterns: set<string>, pattern: string)
    requires WiredIn(cluster, calls, topics, patterns) && Enumerates(visited, cluster)
    ensures WiredIn(cluster, calls + Fanout(visited, BusCall.PatternSubscribe(pattern)), topics, patterns + {pattern})
  {
    var extra := Fanout(visited, BusCall.PatternSubscribe(pattern));
    forall id | id in cluster ensures ReplayedIn(cluster[id], calls + extra, topics, patterns + {pattern}) {
      ReplayedGrows(cluster[id], calls, extra, topics, patterns);
      FanoutReaches(visited, cluster, BusCall.PatternSubscribe(pattern), id);
    }
  }

  /** A bus started and replayed the way `add` does it may be filed under its owner id. */
  lemma WiredAdded(cluster: map<string, NodeBus>, calls: seq<(NodeBus, BusCall)>, topics: set<string>, patterns: set<string>,
                   bus: NodeBus, topicOrder: seq<string>, patternOrder: seq<string>)
    requires WiredIn(cluster, calls, topics, patterns)
    requires Lists(topicOrder, topics) && Lists(patternOrder, patterns)
    ensures WiredIn(cluster[bus.owner := bus],
                    calls + [(bus, StartBus)] + Replays(bus, topicOrder, false) + Replays(bus, patternOrder, true), topics, patterns)
  {
    var started := calls + [(bus, StartBus)];
    var subscribed := started + Replays(bus, topicOrder, false);
    var all := subscribed + Replays(bus, patternOrder, true);
    WiredGrows(cluster, calls, [(bus, StartBus)], topics, patterns);
    WiredGrows(cluster, started, Replays(bus, topicOrder, false), topics, patterns);
    WiredGrows(cluster, subscribed, Replays(bus, patternOrder, true), topics, patterns);
    assert (bus, StartBus) in started;
    forall t | t in topics ensures (bus, BusCall.Subscribe(t)) in all {
      ReplaysCover(bus, topicOrder, false, t);
    }
    forall p | p in patterns ensures (bus, BusCall.PatternSubscribe(p)) in all {
      ReplaysCover(bus, patternOrder, true, p);
    }
  }

  /** `calls` extends `start`, and none of the calls added closes a bus. */
  ghost predicate OpensSince(calls: seq<(NodeBus, BusCall)>, start: seq<(NodeBus, BusCall)>)
  {
    && start <= calls
    && forall k :: |start| <= k < |calls| ==> calls[k].1 != CloseBus
  }

  lemma OpensSinceAdded(calls: seq<(NodeBus, BusCall)>, bus: NodeBus, topicOrder: seq<string>, patternOrder: seq<string>)
    ensures OpensSince(calls + [(bus, StartBus)] + Replays(bus, topicOrder, false) + Replays(bus, patternOrder, true), calls)
  {
    var started := calls + [(bus, StartBus)];
    var subscribed := started + Replays(bus, topicOrder, false);
    var all := subscribed + Replays(bus, patternOrder, true);
    assert all[..|calls|] == calls;
    forall k | |calls| <= k < |all| ensures all[k].1 != CloseBus {
      if k >= |subscribed| {
        assert all[k] == Replays(bus, patternOrder, true)[k - |subscribed|];
      } else if k > |calls| {
        assert all[k] == Replays(bus, topicOrder, false)[k - |started|];
      }
    }
  }

  lemma OpensSinceJoin(start: seq<(NodeBus, BusCall)>, prev: seq<(NodeBus, BusCall)>, calls: seq<(NodeBus, BusCall)>)
    requires OpensSince(prev, start) && OpensSince(calls, prev)
    ensures OpensSince(calls, start)
  {
    assert calls[..|start|] == prev[..|start|];
    forall k | |start| <= k < |prev| ensures calls[k].1 != CloseBus {
      assert calls[k] == prev[k];
    }
  }

  /** `bus` dials a node of `nodes` under that node's id, and hands arrivals to `handler`. */
  ghost predicate Serves(bus: NodeBus, nodes: set<RedisNode>, handler: MessageHandler)
  {
    && bus.handler == handler
    && exists n :: n in nodes && bus.owner == n.nodeId && bus.host == n.nodeHost && bus.port == n.nodePort
  }

  /** A bus that no call of `mid` after `calls` closes, and that `closing` does not close, gets no close after `calls`. */
  lemma NothingElseCloses(calls: seq<(NodeBus, BusCall)>, mid: seq<(NodeBus, BusCall)>, closing: seq<(NodeBus, BusCall)>, bus: NodeBus)
    requires OpensSince(mid, calls) && (bus, CloseBus) !in closing
    ensures (bus, CloseBus) !in (mid + closing)[|calls|..]
  {
    var after := (mid + closing)[|calls|..];
    forall k | 0 <= k < |after| ensures after[k] != (bus, CloseBus) {
      if |calls| + k < |mid| {
        assert after[k] == mid[|calls| + k];
      } else {
        assert after[k] == closing[|calls| + k - |mid|];
      }
    }
  }

  /**
   * `m` is `base` with `filed` filed over it: one bus per id of `doneNodes`, none of
   * them a bus of `base`, each serving a node of `doneNodes`.
   */
  ghost predicate AddedOver(m: map<string, NodeBus>, base: map<string, NodeBus>, filed: map<string, NodeBus>,
                            doneNodes: set<RedisNode>, handler: MessageHandler)
  {
    && m == base + filed && filed.Keys == Ids(doneNodes)
    && forall id :: id in filed ==> filed[id] !in base.Values && Serves(filed[id], doneNodes, handler)
  }

  lemma ServesMore(bus: NodeBus, nodes: set<RedisNode>, more: set<RedisNode>, handler: MessageHandler)
    requires Serves(bus, nodes, handler) && nodes <= more
    ensures Serves(bus, more, handler)
  {
  }

  lemma MergeUpdate(base: map<string, NodeBus>, filed: map<string, NodeBus>, id: string, bus: NodeBus)
    ensures (base + filed)[id := bus] == base + filed[id := bus]
  {
  }

  /** Filing the bus of one more node keeps `filed` a map from the ids of the nodes added to buses that serve them. */
  lemma AddedStep(m: map<string, NodeBus>, base: map<string, NodeBus>, filed: map<string, NodeBus>, doneNodes: set<RedisNode>,
                  n: RedisNode, bus: NodeBus, handler: MessageHandler)
    requires AddedOver(m, base, filed, doneNodes, handler) && bus !in base.Values
    requires bus.owner == n.nodeId && bus.host == n.nodeHost && bus.port == n.nodePort && bus.handler == handler
    ensures AddedOver(m[n.nodeId := bus], base, filed[n.nodeId := bus], doneNodes + {n}, handler)
  {
    IdsAddOne(doneNodes, n);
    MergeUpdate(base, filed, n.nodeId, bus);
    var filed' := filed[n.nodeId := bus];
    assert filed'.Keys == Ids(doneNodes + {n});
    forall id | id in filed' ensures filed'[id] !in base.Values && Serves(filed'[id], doneNodes + {n}, handler) {
      if id == n.nodeId {
        assert n in doneNodes + {n};
      } else {
        assert filed'[id] == filed[id];
        ServesMore(filed[id], doneNodes, doneNodes + {n}, handler);
      }
    }
  }

  /**
   * `m` is `base` less the ids of `doneNodes`; `closed` enumerates the entries taken
   * out, and `calls` is `start` followed by one close for each, in that order.
   */
  ghost predicate RemovedOver(m: map<string, NodeBus>, base: map<string, NodeBus>, doneNodes: set<RedisNode>,
                              closed: seq<(string, NodeBus)>, calls: seq<(NodeBus, BusCall)>, start: seq<(NodeBus, BusCall)>)
  {
    && m == base - Ids(doneNodes)
    && Enumerates(closed, Restrict(base, Ids(doneNodes)))
    && calls == start + Fanout(closed, CloseBus)
  }

  lemma SubtractOne(base: map<string, NodeBus>, ids: set<string>, id: string)
    ensures (base - ids) - {id} == base - (ids + {id})
  {
  }

  /** Removing the id of one more node, closing its bus if it is there, keeps `RemovedOver`. */
  lemma RemovedStep(m: map<string, NodeBus>, base: map<string, NodeBus>, doneNodes: set<RedisNode>, n: RedisNode,
                    closed: seq<(string, NodeBus)>, calls: seq<(NodeBus, BusCall)>, start: seq<(NodeBus, BusCall)>)
    requires RemovedOver(m, base, doneNodes, closed, calls, start)
    ensures n.nodeId !in m ==> RemovedOver(m - {n.nodeId}, base, doneNodes + {n}, closed, calls, start)
    ensures n.nodeId in m ==>
      RemovedOver(m - {n.nodeId}, base, doneNodes + {n}, closed + [(n.nodeId, m[n.nodeId])],
                  calls + [(m[n.nodeId], CloseBus)], start)
  {
    IdsAddOne(doneNodes, n);
    RestrictStep(base, doneNodes, n);
    SubtractOne(base, Ids(doneNodes), n.nodeId);
    if n.nodeId in m {
      EnumeratesExtend(closed, Restrict(base, Ids(doneNodes)), n.nodeId, m[n.nodeId]);
      FanoutAppend(closed, (n.nodeId, m[n.nodeId]), CloseBus);
      assert calls + [(m[n.nodeId], CloseBus)] == start + (Fanout(closed, CloseBus) + [(m[n.nodeId], CloseBus)]);
    }
  }

  /**
   * A bus that additions replaced is never closed by the removals that follow: each
   * bus they close is either a new one or still filed under its own id.
   */
  lemma ReplacedNotClosed(base: map<string, NodeBus>, filed: map<string, NodeBus>, ids: set<string>,
                          closed: seq<(string, NodeBus)>, id: string)
    requires forall k :: k in base ==> base[k].owner == k
    requires id in base && id in filed
    requires forall k :: k in filed ==> filed[k] != base[id]
    requires Enumerates(closed, Restrict(base + filed, ids))
    ensures (base[id], CloseBus) !in Fanout(closed, CloseBus)
  {
    var out := Fanout(closed, CloseBus);
    forall i | 0 <= i < |out| ensures out[i] != (base[id], CloseBus) {
      var k := closed[i].0;
      assert k in base + filed && (base + filed)[k] == closed[i].1;
    }
  }

  class ClusteredRedisNotificationBus {
    const cluster: SafeMap<string, NodeBus>
    const nodesWatcher: ConsulAgent
    var topics: set<string>
    var patterns: set<string>
    var msgHandler: MessageHandler
    /** Every call made on a single-node bus, with the bus it was made on. */
    var busCalls: seq<(NodeBus, BusCall)>

    /** Each bus in the cluster is filed under its own id, and was started and subscribed to every topic and pattern kept. */
    ghost predicate Wired()
      reads this, cluster
    {
      WiredIn(cluster.data, busCalls, topics, patterns)
    }

    ghost predicate Valid()
      reads this, cluster, nodesWatcher
    {
      Wired() && nodesWatcher.Valid()
    }

    /** `NewClusteredRedisNotificationBus(config)`: no nodes, no subscriptions, the logging handler, a fresh Consul agent. */
    constructor (consulHost: string, consulPort: int, redisServiceName: string)
      ensures Valid() && fresh(cluster) && fresh(nodesWatcher)
      ensures cluster.data == map[] && topics == {} && patterns == {} && msgHandler == LogArrival && busCalls == []
      ensures nodesWatcher.address == Address(consulHost, consulPort) && nodesWatcher.serviceName == redisServiceName
      ensures nodesWatcher.nodes == {} && nodesWatcher.events == [] && !nodesWatcher.eventsClosed && nodesWatcher.plan == None
    {
      cluster := new SafeMap();
      nodesWatcher := new ConsulAgent(consulHost, consulPort, redisServiceName);
      topics, patterns := {}, {};
      msgHandler := LogArrival;
      busCalls := [];
    }

    /**
     * `Publish(ctx, topic, msg)`: the message goes to one node of the cluster, drawn
     * by `rnd`, or to none when the cluster is empty; nil is always returned.
     */
    method Publish(topic: string, msg: seq<byte>, rnd: nat) returns (err: Option<string>, publishedTo: Option<string>)
      requires Valid()
      modifies this
      ensures Valid() && err == None
      ensures publishedTo.None? <==> cluster.data == map[]
      ensures publishedTo.None? ==> busCalls == old(busCalls)
      ensures publishedTo.Some? ==>
        && publishedTo.value in cluster.data
        && busCalls == old(busCalls) + [(cluster.data[publishedTo.value], BusCall.Publish(topic, msg))]
      ensures topics == old(topics) && patterns == old(patterns) && msgHandler == old(msgHandler)
    {
      var entry := cluster.ForRandomEntry(rnd);
      if entry.Some? {
        WiredGrows(cluster.data, busCalls, [(entry.value.1, BusCall.Publish(topic, msg))], topics, patterns);
        busCalls := busCalls + [(entry.value.1, BusCall.Publish(topic, msg))];
        return None, Some(entry.value.0);
      }
      assert |cluster.data| == 0;
      return None, None;
    }

    /** Issues `call` on every bus of the cluster, in the order a range over the map meets them. */
    method Broadcast(call: BusCall) returns (visited: seq<(string, NodeBus)>)
      modifies this
      ensures Enumerates(visited, cluster.data)
      ensures busCalls == old(busCalls) + Fanout(visited, call)
      ensures topics == old(topics) && patterns == old(patterns) && msgHandler == old(msgHandler)
    {
      visited := cluster.ForEach();
      busCalls := busCalls + Fanout(visited, call);
    }

    /** `Subscribe(ctx, topic)`: the topic is kept, and subscribed on every node. */
    method Subscribe(topic: string) returns (visited: seq<(string, NodeBus)>)
      requires Valid()
      modifies this
      ensures Valid() && Enumerates(visited, cluster.data)
      ensures topics == old(topics) + {topic} && patterns == old(patterns) && msgHandler == old(msgHandler)
      ensures busCalls == old(busCalls) + Fanout(visited, BusCall.Subscribe(topic))
    {
      topics := topics + {topic};
      visited := Broadcast(BusCall.Subscribe(topic));
      WiredSubscribed(cluster.data, old(busCalls), visited, old(topics), patterns, topic);
    }

    /** `Unsubscribe(ctx, topic)`: the topic is dropped, and unsubscribed on every node. */
    method Unsubscribe(topic: string) returns (visited: seq<(string, NodeBus)>)
      requires Valid()
      modifies this
      ensures Valid() && Enumerates(visited, cluster.data)
      ensures topics == old(topics) - {topic} && patterns == old(patterns) && msgHandler == old(msgHandler)
      ensures busCalls == old(busCalls) + Fanout(visited, BusCall.Unsubscribe(topic))
    {
      topics := topics - {topic};
      visited := Broadcast(BusCall.Unsubscribe(topic));
      WiredGrows(cluster.data, old(busCalls), Fanout(visited, BusCall.Unsubscribe(topic)), old(topics), patterns);
      WiredNarrows(cluster.data, busCalls, old(topics), patterns, {}, topics, patterns);
      assert cluster.data - {} == cluster.data;
    }

    /** `PatternSubscribe(ctx, pattern)`: the pattern is kept, and subscribed on every node. */
    method PatternSubscribe(pattern: string) returns (visited: seq<(string, NodeBus)>)
      requires Valid()
      modifies this
      ensures Valid() && Enumerates(visited, cluster.data)
      ensures patterns == old(patterns) + {pattern} && topics == old(topics) && msgHandler == old(msgHandler)
      ensures busCalls == old(busCalls) + Fanout(visited, BusCall.PatternSubscribe(pattern))
    {
      patterns := patterns + {pattern};
      visited := Broadcast(BusCall.PatternSubscribe(pattern));
      WiredPatternSubscribed(cluster.data, old(busCalls), visited, topics, old(patterns), pattern);
    }

    /** `PatternUnsubscribe(ctx, pattern)`: the pattern is dropped, and unsubscribed on every node. */
    method PatternUnsubscribe(pattern: string) returns (visited: seq<(string, NodeBus)>)
      requires Valid()
      modifies this
      ensures Valid() && Enumerates(visited, cluster.data)
      ensures patterns == old(patterns) - {pattern} && topics == old(topics) && msgHandler == old(msgHandler)
      ensures busCalls == old(busCalls) + Fanout(visited, BusCall.PatternUnsubscribe(pattern))
    {
      patterns := patterns - {pattern};
      visited := Broadcast(BusCall.PatternUnsubscribe(pattern));
      WiredGrows(cluster.data, old(busCalls), Fanout(visited, BusCall.PatternUnsubscribe(pattern)), topics, old(patterns));
      WiredNarrows(cluster.data, busCalls, topics, old(patterns), {}, topics, patterns);
      assert cluster.data - {} == cluster.data;
    }

    /** `SetMessageHandler(handler)`: only buses added from now on receive it. */
    method SetMessageHandler(handler: MessageHandler)
      modifies this
      ensures msgHandler == handler
      ensures topics == old(topics) && patterns == old(patterns) && busCalls == old(busCalls)
    {
      msgHandler := handler;
    }

    /** Subscribes `bus` to each of `items`, in the order a range over the set meets them. */
    method ReplayOn(bus: NodeBus, items: set<string>, pattern: bool) returns (order: seq<string>)
      modifies this
      ensures Lists(order, items)
      ensures busCalls == old(busCalls) + Replays(bus, order, pattern)
      ensures topics == old(topics) && patterns == old(patterns) && msgHandler == old(msgHandler)
    {
      order := [];
      var calls := [];
      var remaining := items;
      while remaining != {}
        modifies {}
        invariant remaining <= items && ListsSoFar(order, items, remaining)
        invariant calls == Replays(bus, order, pattern)
        decreases |remaining|
      {
        var item :| item in remaining;
        ListsSoFarStep(order, items, remaining, item);
        ReplaysAppend(bus, order, item, pattern);
        order := order + [item];
        calls := calls + [(bus, ReplayCall(item, pattern))];
        remaining := remaining - {item};
      }
      busCalls := busCalls + calls;
    }

    /**
     * `add(id, host, port)`: a new bus for the node, with the handler current now and
     * a disconnect handler for `id`, is started, subscribed to every topic and every
     * pattern, and filed under `id`, replacing whatever was there.
     */
    method Add(id: string, host: string, port: int) returns (bus: NodeBus, topicOrder: seq<string>, patternOrder: seq<string>)
      requires Wired()
      modifies this, cluster
      ensures Wired() && fresh(bus)
      ensures bus.host == host && bus.port == port && bus.handler == msgHandler && bus.owner == id
      ensures Lists(topicOrder, topics) && Lists(patternOrder, patterns)
      ensures busCalls == old(busCalls) + [(bus, StartBus)] + Replays(bus, topicOrder, false) + Replays(bus, patternOrder, true)
      ensures cluster.data == old(cluster.data)[id := bus]
      ensures topics == old(topics) && patterns == old(patterns) && msgHandler == old(msgHandler)
    {
      bus := new NodeBus(host, port, msgHandler, id);
      busCalls := busCalls + [(bus, StartBus)];
      topicOrder := ReplayOn(bus, topics, false);
      patternOrder := ReplayOn(bus, patterns, true);
      cluster.Set(id, bus);
      WiredAdded(old(cluster.data), old(busCalls), topics, patterns, bus, topicOrder, patternOrder);
    }

    /**
     * `remove(id)`: a present node is dropped from the cluster and its bus closed; an
     * absent id changes nothing. `closedBus` is the bus the lookup found.
     */
    method Remove(id: string) returns (closedBus: Option<NodeBus>)
      requires Wired()
      modifies this, cluster
      ensures Wired() && cluster.data == old(cluster.data) - {id}
      ensures closedBus.Some? <==> id in old(cluster.data)
      ensures closedBus.Some? ==> closedBus.value == old(cluster.data)[id] && busCalls == old(busCalls) + [(closedBus.value, CloseBus)]
      ensures closedBus.None? ==> busCalls == old(busCalls)
      ensures topics == old(topics) && patterns == old(patterns) && msgHandler == old(msgHandler)
    {
      closedBus := cluster.Get(id);
      if closedBus.Some? {
        cluster.Delete(id);
        WiredGrows(old(cluster.data), busCalls, [(closedBus.value, CloseBus)], topics, patterns);
        busCalls := busCalls + [(closedBus.value, CloseBus)];
      }
      WiredNarrows(old(cluster.data), busCalls, topics, patterns, {id}, topics, patterns);
    }

    /** The disconnect handler of `bus`: its own id is deleted from the cluster. */
    method OnDisconnect(bus: NodeBus)
      requires Wired()
      modifies cluster
      ensures Wired() && cluster.data == old(cluster.data) - {bus.owner}
    {
      cluster.Delete(bus.owner);
      WiredNarrows(old(cluster.data), busCalls, topics, patterns, {bus.owner}, topics, patterns);
    }

    /** `Close()`: every bus of the cluster is closed, then the Consul agent. */
    method Close() returns (visited: seq<(string, NodeBus)>)
      requires Valid()
      modifies this, nodesWatcher, if nodesWatcher.plan.Some? then {nodesWatcher.plan.value} else {}
      ensures Valid() && Enumerates(visited, cluster.data)
      ensures busCalls == old(busCalls) + Fanout(visited, CloseBus)
      ensures nodesWatcher.eventsClosed
      ensures !old(nodesWatcher.eventsClosed) ==> nodesWatcher.plan.None? || nodesWatcher.plan.value.stopped
      ensures topics == old(topics) && patterns == old(patterns) && msgHandler == old(msgHandler)
    {
      visited := Broadcast(CloseBus);
      WiredGrows(cluster.data, old(busCalls), Fanout(visited, CloseBus), topics, patterns);
      nodesWatcher.Close();
    }

    /**
     * `Start()`: the agent starts watching (closing itself if the plan cannot run);
     * the `watcher` goroutine launched next is `Watcher`. Nothing of the bus changes.
     */
    method Start(runFails: bool)
      requires Valid()
      modifies nodesWatcher
      ensures Valid() && nodesWatcher.plan.Some? && fresh(nodesWatcher.plan.value)
      ensures nodesWatcher.eventsClosed == (old(nodesWatcher.eventsClosed) || runFails)
      ensures nodesWatcher.nodes == old(nodesWatcher.nodes) && nodesWatcher.events == old(nodesWatcher.events)
    {
      nodesWatcher.Start(runFails);
    }

    /**
     * `add` for one more node of an event. `filed` holds the buses the event has filed
     * so far, over the cluster `base` it started from.
     */
    method AddNode(n: RedisNode, ghost base: map<string, NodeBus>, ghost doneNodes: set<RedisNode>, filed: map<string, NodeBus>)
      returns (filed': map<string, NodeBus>, bus: NodeBus)
      requires Wired() && AddedOver(cluster.data, base, filed, doneNodes, msgHandler)
      modifies this, cluster
      ensures Wired() && AddedOver(cluster.data, base, filed', doneNodes + {n}, msgHandler)
      ensures fresh(bus) && filed' == filed[n.nodeId := bus]
      ensures OpensSince(busCalls, old(busCalls))
      ensures topics == old(topics) && patterns == old(patterns) && msgHandler == old(msgHandler)
    {
      var topicOrder, patternOrder;
      bus, topicOrder, patternOrder := Add(n.nodeId, n.nodeHost, n.nodePort);
      OpensSinceAdded(old(busCalls), bus, topicOrder, patternOrder);
      assert bus !in base.Values;
      AddedStep(old(cluster.data), base, filed, doneNodes, n, bus, msgHandler);
      filed' := filed[n.nodeId := bus];
    }

    /** One turn of the range in `AddAll`: a node not met yet is picked and added. */
    method AddTurn(nodes: set<RedisNode>, remaining: set<RedisNode>, ghost base: map<string, NodeBus>,
                   ghost doneNodes: set<RedisNode>, filed: map<string, NodeBus>, ghost start: seq<(NodeBus, BusCall)>,
                   ghost made: set<NodeBus>)
      returns (remaining': set<RedisNode>, ghost doneNodes': set<RedisNode>, filed': map<string, NodeBus>, bus: NodeBus,
               ghost made': set<NodeBus>)
      requires remaining != {} && remaining <= nodes && doneNodes == nodes - remaining
      requires Wired() && AddedOver(cluster.data, base, filed, doneNodes, msgHandler) && filed.Values <= made
      requires OpensSince(busCalls, start)
      modifies this, cluster
      ensures remaining' <= nodes && doneNodes' == nodes - remaining' && |remaining'| < |remaining|
      ensures Wired() && AddedOver(cluster.data, base, filed', doneNodes', msgHandler) && filed'.Values <= made'
      ensures fresh(bus) && made' == made + {bus}
      ensures OpensSince(busCalls, start)
      ensures topics == old(topics) && patterns == old(patterns) && msgHandler == old(msgHandler)
    {
      var n :| n in remaining;
      filed', bus := AddNode(n, base, doneNodes, filed);
      made' := made + {bus};
      OpensSinceJoin(start, old(busCalls), busCalls);
      doneNodes' := doneNodes + {n};
      remaining' := remaining - {n};
    }

    /**
     * One `add` per node of `nodes`, in the order a range over the set meets them.
     * `filed` maps each id of `nodes` to the bus now filed under it: a new bus for a
     * node of `nodes` with that id, started and replayed like every bus of the cluster.
     */
    method AddAll(nodes: set<RedisNode>) returns (filed: map<string, NodeBus>)
      requires Wired()
      modifies this, cluster
      ensures Wired() && cluster.data == old(cluster.data) + filed && filed.Keys == Ids(nodes)
      ensures forall id :: id in filed ==> fresh(filed[id]) && Serves(filed[id], nodes, msgHandler)
      ensures OpensSince(busCalls, old(busCalls))
      ensures topics == old(topics) && patterns == old(patterns) && msgHandler == old(msgHandler)
    {
      var remaining := nodes;
      filed := map[];
      ghost var base := cluster.data;
      ghost var doneNodes: set<RedisNode> := {};
      ghost var made: set<NodeBus> := {};
      IdsEmpty();
      assert AddedOver(cluster.data, base, filed, doneNodes, msgHandler);
      while remaining != {}
        invariant Wired() && remaining <= nodes && doneNodes == nodes - remaining
        invariant AddedOver(cluster.data, base, filed, doneNodes, msgHandler)
        invariant filed.Values <= made && forall b :: b in made ==> fresh(b)
        invariant OpensSince(busCalls, old(busCalls))
        invariant topics == old(topics) && patterns == old(patterns) && msgHandler == old(msgHandler)
        decreases |remaining|
      {
        var bus;
        remaining, doneNodes, filed, bus, made := AddTurn(nodes, remaining, base, doneNodes, filed, old(busCalls), made);
      }
      assert doneNodes == nodes;
      assert AddedOver(cluster.data, base, filed, nodes, msgHandler);
      forall id | id in filed ensures fresh(filed[id]) {
        assert filed[id] in filed.Values;
      }
    }

    /**
     * `remove` for one more node of an event. `closed` lists the entries the event has
     * closed so far, out of the cluster `base` it started from.
     */
    method RemoveNode(n: RedisNode, ghost base: map<string, NodeBus>, ghost doneNodes: set<RedisNode>,
                      ghost start: seq<(NodeBus, BusCall)>, closed: seq<(string, NodeBus)>)
      returns (closed': seq<(string, NodeBus)>)
      requires Wired() && RemovedOver(cluster.data, base, doneNodes, closed, busCalls, start)
      modifies this, cluster
      ensures Wired() && RemovedOver(cluster.data, base, doneNodes + {n}, closed', busCalls, start)
      ensures topics == old(topics) && patterns == old(patterns) && msgHandler == old(msgHandler)
    {
      RemovedStep(cluster.data, base, doneNodes, n, closed, busCalls, start);
      var closedBus := Remove(n.nodeId);
      closed' := if closedBus.Some? then closed + [(n.nodeId, closedBus.value)] else closed;
    }

    /**
     * One `remove` per node of `nodes`, by id, in the order a range over the set meets
     * them. `closed` lists the entries removed and closed, in that order.
     */
    method RemoveAll(nodes: set<RedisNode>) returns (closed: seq<(string, NodeBus)>)
      requires Wired()
      modifies this, cluster
      ensures Wired() && cluster.data == old(cluster.data) - Ids(nodes)
      ensures Enumerates(closed, Restrict(old(cluster.data), Ids(nodes)))
      ensures busCalls == old(busCalls) + Fanout(closed, CloseBus)
      ensures forall id :: id in old(cluster.data) && id in Ids(nodes) ==> (old(cluster.data)[id], CloseBus) in busCalls
      ensures topics == old(topics) && patterns == old(patterns) && msgHandler == old(msgHandler)
    {
      var remaining := nodes;
      closed := [];
      ghost var base := cluster.data;
      ghost var doneNodes: set<RedisNode> := {};
      IdsEmpty();
      assert Restrict(base, Ids(doneNodes)) == map[];
      assert RemovedOver(cluster.data, base, doneNodes, closed, busCalls, old(busCalls));
      while remaining != {}
        invariant Wired() && remaining <= nodes && doneNodes == nodes - remaining
        invariant RemovedOver(cluster.data, base, doneNodes, closed, busCalls, old(busCalls))
        invariant topics == old(topics) && patterns == old(patterns) && msgHandler == old(msgHandler)
        decreases |remaining|
      {
        var n :| n in remaining;
        closed := RemoveNode(n, base, doneNodes, old(busCalls), closed);
        doneNodes := doneNodes + {n};
        remaining := remaining - {n};
      }
      assert doneNodes == nodes;
      forall id | id in base && id in Ids(nodes) ensures (base[id], CloseBus) in busCalls {
        FanoutReaches(closed, Restrict(base, Ids(nodes)), CloseBus, id);
      }
    }

    /**
     * One event of `watcher` as written: every added node is added, then every removed
     * node is removed. A bus the additions replace is never closed, and the new bus of
     * an id both added and removed is closed and its id dropped.
     */
    method HandleEventAddsFirst(ev: RedisClusterEvent) returns (filed: map<string, NodeBus>, closed: seq<(string, NodeBus)>)
      requires Wired()
      modifies this, cluster
      ensures Wired() && cluster.data == (old(cluster.data) + filed) - Ids(ev.removed)
      ensures cluster.data.Keys == KeysAddsFirst(old(cluster.data.Keys), ev)
      ensures filed.Keys == Ids(ev.added)
      ensures forall id :: id in filed ==> fresh(filed[id]) && Serves(filed[id], ev.added, msgHandler)
      ensures Enumerates(closed, Restrict(old(cluster.data) + filed, Ids(ev.removed)))
      ensures old(busCalls) <= busCalls
      ensures forall id :: id in old(cluster.data) && id in filed ==> (old(cluster.data)[id], CloseBus) !in busCalls[|old(busCalls)|..]
      ensures forall id :: id in filed && id in Ids(ev.removed) ==> (filed[id], CloseBus) in busCalls && id !in cluster.data
      ensures topics == old(topics) && patterns == old(patterns) && msgHandler == old(msgHandler)
    {
      ghost var base := cluster.data;
      assert forall k :: k in base ==> base[k].owner == k;
      filed := AddAll(ev.added);
      ghost var mid := busCalls;
      closed := RemoveAll(ev.removed);
      forall id | id in base && id in filed
        ensures (base[id], CloseBus) !in busCalls[|old(busCalls)|..]
      {
        assert forall k :: k in filed ==> filed[k] != base[id];
        ReplacedNotClosed(base, filed, Ids(ev.removed), closed, id);
        NothingElseCloses(old(busCalls), mid, Fanout(closed, CloseBus), base[id]);
      }
      forall id | id in filed && id in Ids(ev.removed) ensures (filed[id], CloseBus) in busCalls {
        assert (base + filed)[id] == filed[id];
      }
    }

    /**
     * One event with the removals applied before the additions: every bus filed under
     * a removed id is closed, and a moved node is filed again under a new bus.
     */
    method HandleEventRemovesFirst(ev: RedisClusterEvent) returns (closed: seq<(string, NodeBus)>, filed: map<string, NodeBus>)
      requires Wired()
      modifies this, cluster
      ensures Wired() && cluster.data == (old(cluster.data) - Ids(ev.removed)) + filed
      ensures cluster.data.Keys == KeysRemovesFirst(old(cluster.data.Keys), ev)
      ensures Enumerates(closed, Restrict(old(cluster.data), Ids(ev.removed)))
      ensures forall id :: id in old(cluster.data) && id in Ids(ev.removed) ==> (old(cluster.data)[id], CloseBus) in busCalls
      ensures filed.Keys == Ids(ev.added)
      ensures forall id :: id in filed ==> fresh(filed[id]) && Serves(filed[id], ev.added, msgHandler)
      ensures OpensSince(busCalls, old(busCalls) + Fanout(closed, CloseBus))
      ensures topics == old(topics) && patterns == old(patterns) && msgHandler == old(msgHandler)
    {
      closed := RemoveAll(ev.removed);
      filed := AddAll(ev.added);
    }

    /** One event as `Watcher` applies it, seen through the cluster's ids and the wiring of its buses. */
    method ApplyEvent(ev: RedisClusterEvent)
      requires Valid()
      modifies this, cluster
      ensures Valid() && cluster.data.Keys == KeysRemovesFirst(old(cluster.data.Keys), ev)
      ensures old(busCalls) <= busCalls && topics == old(topics) && patterns == old(patterns)
    {
      var closed, _ := HandleEventRemovesFirst(ev);
      assert old(busCalls) <= old(busCalls) + Fanout(closed, CloseBus);
    }

    /**
     * `watcher()` over the values received from the agent's channel, `None` standing
     * for the channel found closed: each event is applied (removals first), and a
     * closed channel closes the bus, every node of it in the order `visited`, and ends
     * the loop.
     */
    method Watcher(received: seq<Option<RedisClusterEvent>>) returns (closed: bool, visited: seq<(string, NodeBus)>)
      requires Valid()
      modifies this, cluster, nodesWatcher, if nodesWatcher.plan.Some? then {nodesWatcher.plan.value} else {}
      ensures Valid() && topics == old(topics) && patterns == old(patterns)
      ensures old(busCalls) <= busCalls
      ensures closed <==> None in received
      ensures closed ==>
        && nodesWatcher.eventsClosed && Enumerates(visited, cluster.data)
        && |visited| <= |busCalls| && busCalls[|busCalls| - |visited|..] == Fanout(visited, CloseBus)
      ensures !closed ==> visited == [] && cluster.data.Keys == KeysAfterAll(old(cluster.data.Keys), Events(received))
    {
      var i := 0;
      visited := [];
      while i < |received|
        invariant 0 <= i <= |received| && Valid() && visited == []
        invariant None !in received[..i]
        invariant topics == old(topics) && patterns == old(patterns) && old(busCalls) <= busCalls
        invariant KeysAfterAll(old(cluster.data.Keys), Events(received[..i])) == cluster.data.Keys
        invariant nodesWatcher.plan == old(nodesWatcher.plan)
      {
        match received[i] {
          case None =>
            ghost var before := busCalls;
            visited := Close();
            assert busCalls[|before|..] == Fanout(visited, CloseBus);
            return true, visited;
          case Some(ev) =>
            ApplyEvent(ev);
            EventsAppend(received[..i], ev);
            KeysAfterAllAppend(old(cluster.data.Keys), Events(received[..i]), ev);
            assert received[..i + 1] == received[..i] + [Some(ev)];
        }
        i := i + 1;
      }
      assert received[..i] == received;
      return false, visited;
    }
  }

  /** The events among `received`, in order. */
  function Events(received: seq<Option<RedisClusterEvent>>): seq<RedisClusterEvent>
  {
    if received == [] then []
    else Events(received[..|received| - 1]) + (match received[|received| - 1] case None => [] case Some(ev) => [ev])
  }

  lemma EventsAppend(received: seq<Option<RedisClusterEvent>>, ev: RedisClusterEvent)
    ensures Events(received + [Some(ev)]) == Events(received) + [ev]
  {
    assert (received + [Some(ev)])[..|received|] == received;
  }

  lemma {:induction false} KeysAfterAllAppend(keys: set<string>, events: seq<RedisClusterEvent>, ev: RedisClusterEvent)
    ensures KeysAfterAll(keys, events + [ev]) == KeysRemovesFirst(KeysAfterAll(keys, events), ev)
    decreases |events|
  {
    if events == [] {
      assert [ev][1..] == [];
    } else {
      assert (events + [ev])[0] == events[0] && (events + [ev])[1..] == events[1..] + [ev];
      KeysAfterAllAppend(KeysRemovesFirst(keys, events[0]), events[1..], ev);
    }
  }
}
