/**
 * The wiring of the connection service's entry point
 * (services/connection-service/main.go).
 *
 * At start-up the clustered bus is pattern-subscribed to every user topic and
 * given the handler that delivers to the registry (the handler of the chat
 * server's wiring, `ChatWiring.DeliverNotification`). Each accepted connection
 * then runs a loop that publishes every message read from it until the connection
 * is Done. The loop's `select` is a schedule of which case is ready at each turn.
 */
module ServiceWiring {
  import opened Wrappers
  import opened GoStrings
  import opened Utf8
  import opened ServiceConnection
  import ClusteredBus
  import ChatWiring

  /** The pattern that covers every user topic. */
  const UserPattern: string := "/to/user/*"

  /** The topic every message read from a connection is published to. */
  const PublishTopic: string := "/to/user/1"

  /** A Redis glob pattern whose only wildcard is one trailing `*`, matched against a topic. */
  predicate TrailingStarMatch(pattern: string, topic: string)
    requires |pattern| > 0 && pattern[|pattern| - 1] == '*'
  {
    HasPrefix(topic, pattern[..|pattern| - 1])
  }

  /** The user pattern matches the topic of every user, and the handler reads the user back from it. */
  lemma UserPatternCoversUserTopics(id: string)
    ensures TrailingStarMatch(UserPattern, ChatWiring.UserTopic(id))
    ensures ChatWiring.UserIdOf(ChatWiring.UserTopic(id)) == id
  {
    assert UserPattern[..|UserPattern| - 1] == ChatWiring.UserTopicPrefix;
    assert ChatWiring.UserTopic(id)[..|ChatWiring.UserTopicPrefix|] == ChatWiring.UserTopicPrefix;
    ChatWiring.UserTopicRoundTrip(id);
  }

  /** A topic the user pattern matches names the user the handler delivers to. */
  lemma MatchedTopicNamesUser(topic: string)
    requires TrailingStarMatch(UserPattern, topic)
    ensures ChatWiring.UserTopic(ChatWiring.UserIdOf(topic)) == topic
  {
    assert UserPattern[..|UserPattern| - 1] == ChatWiring.UserTopicPrefix;
  }

  /**
   * `SetUpNotificationHandlers(wss, bus)`: pattern-subscribes `UserPattern` on the
   * bus (and so on every live node) and then installs `handler`, standing for the
   * delivering closure. Topics are untouched.
   */
  method SetUpNotificationHandlers(bus: ClusteredBus.ClusteredRedisNotificationBus, handler: ClusteredBus.MessageHandler)
    returns (visited: seq<(string, ClusteredBus.NodeBus)>)
    requires bus.Valid()
    modifies bus
    ensures bus.Valid()
    ensures bus.patterns == old(bus.patterns) + {UserPattern} && bus.topics == old(bus.topics)
    ensures bus.msgHandler == handler
    ensures bus.busCalls == old(bus.busCalls) + ClusteredBus.Fanout(visited, ClusteredBus.PatternSubscribe(UserPattern))
  {
    visited := bus.PatternSubscribe(UserPattern);
    bus.SetMessageHandler(handler);
  }

  /** Which case of the connection loop's `select` is taken at one turn. */
  datatype Ready = DoneReady | MessageReady(msg: WsMessage, rnd: nat)

  /** Whether the connection is Done at some turn of `schedule`. */
  predicate DoneAt(schedule: seq<Ready>)
  {
    exists k :: 0 <= k < |schedule| && schedule[k].DoneReady?
  }

  /** The payloads the loop publishes over `schedule`: those read before the first Done, in order. */
  function Outgoing(schedule: seq<Ready>): (r: seq<seq<byte>>)
    ensures |r| <= |schedule|
  {
    if schedule == [] then []
    else match schedule[0]
      case DoneReady => []
      case MessageReady(msg, _) => [msg.data] + Outgoing(schedule[1..])
  }

  /** Every published payload is a read message's data, unchanged and in read order, and none is read after Done. */
  lemma {:induction false} OutgoingInOrder(schedule: seq<Ready>)
    ensures var out := Outgoing(schedule);
      && (forall k :: 0 <= k < |out| ==> schedule[k].MessageReady? && out[k] == schedule[k].msg.data)
      && (|out| < |schedule| <==> DoneAt(schedule))
      && (|out| < |schedule| ==> schedule[|out|].DoneReady?)
  {
    if schedule != [] && schedule[0].MessageReady? {
      OutgoingInOrder(schedule[1..]);
      if DoneAt(schedule) {
        var k :| 0 <= k < |schedule| && schedule[k].DoneReady?;
        assert schedule[1..][k - 1].DoneReady?;
      }
      if DoneAt(schedule[1..]) {
        var k :| 0 <= k < |schedule[1..]| && schedule[1..][k].DoneReady?;
        assert schedule[k + 1].DoneReady?;
      }
    } else if schedule != [] {
      assert schedule[0].DoneReady?;
    }
  }

  /** `calls` publish `payloads` to `PublishTopic`, one each and in order, each on one of `nodes`. */
  ghost predicate PublishedOn(calls: seq<(ClusteredBus.NodeBus, ClusteredBus.BusCall)>, payloads: seq<seq<byte>>, nodes: set<ClusteredBus.NodeBus>)
  {
    && |calls| == |payloads|
    && forall k :: 0 <= k < |calls| ==> calls[k].1 == ClusteredBus.Publish(PublishTopic, payloads[k]) && calls[k].0 in nodes
  }

  lemma PublishedOnAppend(calls: seq<(ClusteredBus.NodeBus, ClusteredBus.BusCall)>, payloads: seq<seq<byte>>,
                          nodes: set<ClusteredBus.NodeBus>, node: ClusteredBus.NodeBus, payload: seq<byte>)
    requires PublishedOn(calls, payloads, nodes) && node in nodes
    ensures PublishedOn(calls + [(node, ClusteredBus.Publish(PublishTopic, payload))], payloads + [payload], nodes)
  {
  }

  /** The bookkeeping of one loop turn that published `data` (on node `to`, if any). */
  lemma NoteRead(added: seq<(ClusteredBus.NodeBus, ClusteredBus.BusCall)>, sent: seq<seq<byte>>,
                 nodes: set<ClusteredBus.NodeBus>, cluster: map<string, ClusteredBus.NodeBus>, to: Option<string>, data: seq<byte>)
    returns (added': seq<(ClusteredBus.NodeBus, ClusteredBus.BusCall)>, sent': seq<seq<byte>>)
    requires nodes == cluster.Values
    requires PublishedOn(added, if cluster == map[] then [] else sent, nodes)
    requires to.Some? <==> cluster != map[]
    requires to.Some? ==> to.value in cluster
    ensures sent' == sent + [data]
    ensures added' == added + (if to.Some? then [(cluster[to.value], ClusteredBus.Publish(PublishTopic, data))] else [])
    ensures PublishedOn(added', if cluster == map[] then [] else sent', nodes)
  {
    sent' := sent + [data];
    added' := added;
    if to.Some? {
      PublishedOnAppend(added, sent, nodes, cluster[to.value], data);
      added' := added + [(cluster[to.value], ClusteredBus.Publish(PublishTopic, data))];
    }
  }

  /** One read turn of the connection loop: `data` is published, and the bookkeeping follows it. */
  method PublishRead(bus: ClusteredBus.ClusteredRedisNotificationBus, data: seq<byte>, rnd: nat,
                     ghost base: seq<(ClusteredBus.NodeBus, ClusteredBus.BusCall)>,
                     ghost added: seq<(ClusteredBus.NodeBus, ClusteredBus.BusCall)>,
                     ghost sent: seq<seq<byte>>, ghost nodes: set<ClusteredBus.NodeBus>)
    returns (ghost added': seq<(ClusteredBus.NodeBus, ClusteredBus.BusCall)>, ghost sent': seq<seq<byte>>)
    requires bus.Valid() && nodes == bus.cluster.data.Values
    requires bus.busCalls == base + added
    requires PublishedOn(added, if bus.cluster.data == map[] then [] else sent, nodes)
    modifies bus
    ensures bus.Valid()
    ensures bus.topics == old(bus.topics) && bus.patterns == old(bus.patterns) && bus.msgHandler == old(bus.msgHandler)
    ensures sent' == sent + [data]
    ensures bus.busCalls == base + added'
    ensures PublishedOn(added', if bus.cluster.data == map[] then [] else sent', nodes)
  {
    var err, to := bus.Publish(PublishTopic, data, rnd);
    added', sent' := NoteRead(added, sent, nodes, bus.cluster.data, to, data);
  }

  /** A loop that read `sent` over the first `i` turns and stops at turn `i` published exactly `Outgoing(schedule)`. */
  lemma OutgoingUpTo(schedule: seq<Ready>, i: nat, sent: seq<seq<byte>>)
    requires i <= |schedule| && |sent| == i
    requires forall k :: 0 <= k < i ==> schedule[k].MessageReady? && sent[k] == schedule[k].msg.data
    requires i < |schedule| ==> schedule[i].DoneReady?
    ensures Outgoing(schedule) == sent
    ensures DoneAt(schedule) <==> i < |schedule|
  {
    OutgoingInOrder(schedule);
  }

  /**
   * `MakeWsConnectionHandler(bus)` run on one connection over `schedule`: each
   * message read is published to `PublishTopic` with its data unchanged, on one node
   * of the cluster (none when the cluster is empty); a publish error would be logged
   * and the loop goes on; the loop returns once the connection is Done. `stopped`
   * says whether it returned within the schedule.
   */
  method ServeConnection(bus: ClusteredBus.ClusteredRedisNotificationBus, schedule: seq<Ready>) returns (stopped: bool)
    requires bus.Valid()
    modifies bus
    ensures bus.Valid()
    ensures stopped <==> DoneAt(schedule)
    ensures bus.topics == old(bus.topics) && bus.patterns == old(bus.patterns) && bus.msgHandler == old(bus.msgHandler)
    ensures |old(bus.busCalls)| <= |bus.busCalls| && bus.busCalls[..|old(bus.busCalls)|] == old(bus.busCalls)
    ensures PublishedOn(bus.busCalls[|old(bus.busCalls)|..],
                        if bus.cluster.data == map[] then [] else Outgoing(schedule), bus.cluster.data.Values)
  {
    ghost var base := bus.busCalls;
    ghost var added: seq<(ClusteredBus.NodeBus, ClusteredBus.BusCall)> := [];
    ghost var sent: seq<seq<byte>> := [];
    ghost var nodes := bus.cluster.data.Values;
    var i := 0;
    while i < |schedule|
      invariant 0 <= i <= |schedule| && |sent| == i
      invariant forall k :: 0 <= k < i ==> schedule[k].MessageReady? && sent[k] == schedule[k].msg.data
      invariant bus.Valid()
      invariant bus.topics == old(bus.topics) && bus.patterns == old(bus.patterns) && bus.msgHandler == old(bus.msgHandler)
      invariant bus.busCalls == base + added
      invariant PublishedOn(added, if bus.cluster.data == map[] then [] else sent, nodes)
    {
      if schedule[i].DoneReady? {
        break;
      }
      added, sent := PublishRead(bus, schedule[i].msg.data, schedule[i].rnd, base, added, sent, nodes);
      i := i + 1;
    }
    OutgoingUpTo(schedule, i, sent);
    assert (base + added)[|base|..] == added;
    stopped := i < |schedule|;
  }
}
