# online-chat-go, modelled in Dafny

This project models the in-memory bookkeeping of the online-chat-go WebSocket relay.

- Users connect over WebSockets. A registry maps each user id to a holder of that user's open connections.
- "User connected" and "user disconnected" callbacks keep a notification bus subscribed to the topic `/to/user/<id>` of every connected user.
- A message arriving on such a topic is sent as a text frame to every live connection of that user.
- The connection service runs the bus over a Redis cluster whose membership it learns from Consul. It diffs successive node snapshots and replays its subscriptions on every node that joins.

Each Go file of the core is its own Dafny module. Several files are earlier snapshots of the same package that never compiled together, so each snapshot gets its own module:

| module | file |
|---|---|
| `SliceUtil` | services/connection-service/util/slice.go |
| `SafeMapModel` | services/connection-service/util/safe_map.go |
| `UserConns` | websocket/userconns.go |
| `ConnectionServer` | services/connection-service/websocket/server.go |
| `ServiceConnection` | services/connection-service/websocket/connection.go |
| `ClusterDiscovery` | services/connection-service/notifications/redis_bus/clustered/discovery.go |
| `ClusteredBus` | services/connection-service/notifications/redis_bus/clustered/clustered_redis_notification_bus.go |
| `LegacyDiscovery` | services/connection-service/discovery/discovery.go |
| `LegacyServer` | websocket/server.go |
| `LegacyConnection` | websocket/connection.go |
| `ChatWiring` | main.go |
| `ServiceWiring` | services/connection-service/main.go |
| `ServiceConfig` | services/connection-service/config/config.go |

Three support modules are shared by the others:

- `Wrappers`: `Option` and `Result`.
- `GoStrings`: `strings.HasPrefix` and `strings.CutPrefix`.
- `Utf8`: Go's `[]byte(s)`, which is the UTF-8 encoding of section 3 of RFC 3629.

## How the Go code is represented

- Structs whose fields the code updates become classes with `modifies` clauses. Slices become `seq` fields, Go maps become `map` fields, and sets become `set` fields. `util.RemoveSwap` keeps its backing `array`.
- Every call runs alone: mutexes are dropped, and a `go f(x)` is modelled as a call to `f(x)` at the point where it is issued.
- Registry connections are opaque values compared by identity. A broadcast takes a set `done` and returns the `(connection, message)` pairs it enqueues on the connections outside it.
  - In the connection service, `done` is the set of connections whose `select` took the Done case. That `select` has two cases and no `default`, so when a connection is Done and its write pump has room, Go picks either case at random. A Done connection may therefore still be enqueued; it is then simply not in `done`.
  - In the older registry snapshot (websocket/server.go), the `select` has a `default` case. There `done` is exactly the set of connections that are Done.
- Callbacks are represented by whether one is installed (Go's non-nil). Each invocation is appended to a log.
- Socket, Redis and Consul clients are represented by the calls made on them, which are logged. What they answer is an input: read frames, write and close errors, watch results, the random index.
- A `select` loop runs over a finite schedule that says which case fires at each turn.

## Model

| member | source | states |
|---|---|---|
| SliceUtil.RemoveSwapSpec | services/connection-service/util/slice.go:25-44 | Fails exactly when `idx < 0` or `idx >= len`, with "Index is less than 0" or the "Index: %d is greater than slice length: %d" message. Otherwise the result is the swap-removed contents. |
| SliceUtil.SwapRemoved | services/connection-service/util/slice.go:34-42 | The length drops by one. Position `idx` receives the former last element unless `idx` was last. Every other position is unchanged. |
| SliceUtil.SwapRemovedMultiset | services/connection-service/util/slice.go:34-42 | Swap-removal takes away exactly one copy of the removed element and keeps every other element: a multiset difference. |
| SliceUtil.IndexOf | services/connection-service/util/slice.go:16-20 | The first index holding `elem` when scanning from 0, or none exactly when `elem` is absent. |
| SliceUtil.RemoveSwapElemSpec | services/connection-service/util/slice.go:15-23 | Fails with "Element not found" exactly when `elem` is absent. On success the length drops by one. |
| SliceUtil.RemoveSwapElemMultiset | services/connection-service/util/slice.go:15-44 | Removing a present `elem` takes away exactly one copy of it and keeps everything else. |
| SliceUtil.DecimalRoundTrip | services/connection-service/util/slice.go:31 | The `%d` rendering of an index in the error message reads back as that index. |
| SliceUtil.RemoveSwap | services/connection-service/util/slice.go:25-44 | An out-of-range index returns its error and changes neither the slice nor its backing array. Otherwise the contents become `RemoveSwapSpec`'s result, the vacated backing slot holds the zero value, and later slots are untouched. |
| SliceUtil.RemoveSwapElem | services/connection-service/util/slice.go:15-23 | An absent element returns "Element not found" and changes nothing. Otherwise the first occurrence is swap-removed in place, with the same guarantees as `RemoveSwap`. |
| SafeMapModel.SafeMap.constructor | services/connection-service/util/safe_map.go:13-17 | `NewSafeMap` is empty. |
| SafeMapModel.SafeMap.Set | services/connection-service/util/safe_map.go:19-23 | `k` maps to `v` and every other key is unchanged. |
| SafeMapModel.SafeMap.ComputeIfAbsent | services/connection-service/util/safe_map.go:25-36 | An absent key stores the supplied value and returns it with `true`. A present key returns the stored value with `false` and leaves the map unchanged. |
| SafeMapModel.SafeMap.Get | services/connection-service/util/safe_map.go:38-43 | Returns the stored value exactly when the key is present, and changes nothing. |
| SafeMapModel.SafeMap.ForRandomEntry | services/connection-service/util/safe_map.go:45-65 | Returns nothing (Go's `false`) exactly when the map is empty. Otherwise the callback runs once, on an entry of the map. |
| SafeMapModel.SafeMap.Delete | services/connection-service/util/safe_map.go:67-71 | Removes only `k`. Deleting an absent key is a no-op. |
| SafeMapModel.SafeMap.Len | services/connection-service/util/safe_map.go:73-77 | The number of keys. |
| SafeMapModel.SafeMap.ForEach | services/connection-service/util/safe_map.go:79-85 | The callback runs on every entry exactly once, with that entry's current value. |
| UserConns.UserWsConnections.constructor | websocket/userconns.go:23-34 | A new holder is empty and live. |
| UserConns.UserWsConnections.AddConnection | websocket/userconns.go:37-48 | A destroyed holder refuses with `DestroyedUConnUsageError` and is unchanged. A live holder appends at the end with no duplicate check. `destroyed` never changes. |
| UserConns.UserWsConnections.RemoveConnection | websocket/userconns.go:50-60 | Swap-removes the connection and passes on the removal error. The holder is destroyed exactly when it was already destroyed or is now empty, including after a failed removal from an empty holder. The flag is returned. |
| UserConns.UserWsConnections.ForAllConnections | websocket/userconns.go:62-74 | A destroyed holder reports an error and visits nothing. A live holder visits each connection once, in order. |
| ConnectionServer.BalancedConnect | services/connection-service/websocket/server.go:35-37 | A connect of a user with no holder keeps the callback history balanced: each held user has exactly one more connect than disconnect. |
| ConnectionServer.BalancedDisconnect | services/connection-service/websocket/server.go:55-60 | A disconnect of a held user keeps the history balanced. |
| ConnectionServer.Deliveries | services/connection-service/websocket/server.go:78-87 | A broadcast enqueues at most one message per held connection. |
| ConnectionServer.DeliveriesCount | services/connection-service/websocket/server.go:73-89 | A broadcast reaches each connection outside `done` as often as it is held, and never reaches one in `done`. `done` is the set of connections whose `select` took the Done case. |
| ConnectionServer.DeliveriesSound | services/connection-service/websocket/server.go:73-89 | Every delivery goes to a held connection outside `done` and carries the message unchanged. |
| ConnectionServer.LiftIterationError | services/connection-service/websocket/server.go:79-88 | The holder's iteration error is returned as is, and no error stays no error. |
| ConnectionServer.WSServer.constructor | services/connection-service/websocket/server.go:17-19 | `NewWSServer` has no users, no callbacks and an empty history. |
| ConnectionServer.WSServer.SetOnUserConnected | services/connection-service/websocket/server.go:21-23 | Installs or clears the connect callback and changes nothing else. |
| ConnectionServer.WSServer.SetOnUserDisconnected | services/connection-service/websocket/server.go:25-27 | Installs or clears the disconnect callback and changes nothing else. |
| ConnectionServer.WSServer.HolderFor | services/connection-service/websocket/server.go:31 | `ComputeIfAbsent` with `newSingleUserWsConnection` returns the stored holder, or a fresh empty live one, and reports whether it created it. |
| ConnectionServer.WSServer.TryAdd | services/connection-service/websocket/server.go:30-35 | One pass of the retry loop never meets a destroyed holder (`err == None`). It appends `conn` to the user's list and reports creation exactly for a new user. |
| ConnectionServer.WSServer.NoteConnected | services/connection-service/websocket/server.go:37-42 | "User connected" fires exactly when the holder was created and the callback is installed. Every holder in the map stays live and non-empty. |
| ConnectionServer.WSServer.AddConnection | services/connection-service/websocket/server.go:29-46 | `conn` becomes the last connection held for `id`, and nil is returned. "User connected" fires exactly when this call created the holder and a callback is installed. |
| ConnectionServer.WSServer.ShrinkHolder | services/connection-service/websocket/server.go:54 | The holder swap-removes `conn` and reports its removal error. It is destroyed exactly when it is left empty, and the user then drops out. |
| ConnectionServer.WSServer.EvictIfDestroyed | services/connection-service/websocket/server.go:55-60 | A destroyed holder's id is deleted, and "user disconnected" fires when a callback is installed. Otherwise nothing changes. |
| ConnectionServer.WSServer.RemoveConnection | services/connection-service/websocket/server.go:48-63 | An unknown id returns "No connections for id: …" and fires nothing. Otherwise `conn` is swap-removed and the removal error is returned. If that empties the holder, the id is deleted and "user disconnected" fires (when installed). No empty or destroyed holder stays in the map. |
| ConnectionServer.WSServer.SendMessage | services/connection-service/websocket/server.go:73-89 | An unknown id returns an error and enqueues nothing. Otherwise `{msgType, msgData}` is enqueued, in holder order, on every connection of the user whose `select` did not take the Done case, and nil is returned. |
| ConnectionServer.WSServer.SendTextMessage | services/connection-service/websocket/server.go:65-67 | As `SendMessage`, with a text frame of the UTF-8 bytes of `msg`. Every enqueued payload decodes back to `msg`. |
| ConnectionServer.WSServer.SendBinaryMessage | services/connection-service/websocket/server.go:69-71 | As `SendMessage`, with a binary frame carrying `msg` unchanged. |
| Utf8.EncodeChar | services/connection-service/websocket/server.go:65-67 | A character takes one to four bytes. |
| Utf8.DecodeEncodeChar | services/connection-service/websocket/server.go:65-67 | Each character's encoding decodes back to that character, whatever follows it. |
| Utf8.DecodeEncode | services/connection-service/websocket/server.go:65-67 | `[]byte(msg)` loses nothing: the lenient reader `Decode` gives `msg` back, so two texts are never sent as the same bytes. Each character takes one to four bytes. |
| Utf8.EncodeAscii | services/connection-service/websocket/server.go:65-67 | ASCII text is sent byte for byte. |
| ServiceConnection.DoneSignal.constructor | services/connection-service/websocket/connection.go:142 | A new `done` channel is open. |
| ServiceConnection.WsConnection.constructor | services/connection-service/websocket/connection.go:121-147 | Both queues get capacity 256 whatever the config says. The config's read limit is set on the transport, and `done` is open. |
| ServiceConnection.WsConnection.Done | services/connection-service/websocket/connection.go:68-70 | Every call returns the same signal. |
| ServiceConnection.WsConnection.Close | services/connection-service/websocket/connection.go:54-66 | The first call closes `done` and then the transport, and returns the transport's answer. Later calls return nil and touch nothing. `done` stays closed. |
| ServiceConnection.WsConnection.Write | services/connection-service/websocket/connection.go:94-102 | The frame goes to the transport and its error is returned. A failure closes the connection once. |
| ServiceConnection.WriteKeepsCloseLog | services/connection-service/websocket/connection.go:94-102 | A write adds its frame and, on failure, at most one close. The transport is closed exactly when `done` is. |
| ServiceConnection.WriterKeepsCloseLog | services/connection-service/websocket/connection.go:72-102 | Over any schedule, the writer closes the transport at most once, and only together with `done`. |
| ServiceConnection.WriterStepDrainsFront | services/connection-service/websocket/connection.go:76-91 | One turn takes at most the front message of the queue, and returns only with `done` closed. |
| ServiceConnection.WriterDrainsFront | services/connection-service/websocket/connection.go:72-92 | The writer consumes the queue from the front only: what is left is a suffix of what was queued. |
| ServiceConnection.WriterStopsOnDone | services/connection-service/websocket/connection.go:72-92 | The writer returns only once `done` is closed, whether it saw `done` or a failed write closed it. Until it returns, `done` keeps its state. |
| ServiceConnection.WriterStepWrites | services/connection-service/websocket/connection.go:76-91 | One turn writes an empty ping, a queued message, or the close after a failed write. |
| ServiceConnection.WriterWritesPingsAndQueued | services/connection-service/websocket/connection.go:72-92 | Every frame the writer sends is an empty `PingMessage` or a message that was queued, with its own type and data. |
| ServiceConnection.WsConnection.WriterTurn | services/connection-service/websocket/connection.go:77-90 | One turn of the `select` ends in the state `WriterStep` gives, and returns exactly when that step stops the loop. |
| ServiceConnection.WsConnection.RunWriter | services/connection-service/websocket/connection.go:72-92 | `runWriter` over a schedule ends in the state that `WriterRun` computes, and leaves the read queue alone. |
| ServiceConnection.ForwardedFramesInOrder | services/connection-service/websocket/connection.go:104-119 | The reader forwards the frames it reads, unchanged and in read order. It stops exactly at the first failure. |
| ServiceConnection.WsConnection.ReaderTurn | services/connection-service/websocket/connection.go:110-116 | A frame is pushed to `readPump` unchanged and the loop goes on. A failed read closes the connection once and ends the loop. |
| ServiceConnection.WsConnection.RunReader | services/connection-service/websocket/connection.go:104-119 | If `done` is already closed, the reader returns at once. Otherwise frames are pushed to `readPump` in read order up to the first failure, which closes the connection once. The connection is closed exactly when some read fails. |
| ClusterDiscovery.NodesOfCollapses | services/connection-service/notifications/redis_bus/clustered/discovery.go:95-102 | A repeated service entry adds no node, and there are never more nodes than entries. |
| ClusterDiscovery.NodesOfBound | services/connection-service/notifications/redis_bus/clustered/discovery.go:95-102 | A snapshot has at most as many nodes as entries. |
| ClusterDiscovery.Diff | services/connection-service/notifications/redis_bus/clustered/discovery.go:104-105 | `Added` is new minus old and `Removed` is old minus new, elementwise. |
| ClusterDiscovery.DiffApplies | services/connection-service/notifications/redis_bus/clustered/discovery.go:104-106 | `Added` and `Removed` are disjoint, and `(old − Removed) ∪ Added = new`. The event is empty exactly when the snapshot did not change. |
| ClusterDiscovery.MovedNodeInBoth | services/connection-service/notifications/redis_bus/clustered/discovery.go:13-17 | Nodes compare by id, host and port together, so a node whose host or port changes is both removed and added. |
| ClusterDiscovery.ConsulAgent.constructor | services/connection-service/notifications/redis_bus/clustered/discovery.go:111-119 | `NewConsul` uses the `host:port` address and the configured service name. It starts with no nodes, an open channel and no plan. |
| ClusterDiscovery.ConsulAgent.Start | services/connection-service/notifications/redis_bus/clustered/discovery.go:39-69 | A fresh plan is installed. If running it fails, the agent closes. |
| ClusterDiscovery.ConsulAgent.CollectNodes | services/connection-service/notifications/redis_bus/clustered/discovery.go:95-102 | The loop builds exactly the node set the entries describe. |
| ClusterDiscovery.ConsulAgent.UpdateNodes | services/connection-service/notifications/redis_bus/clustered/discovery.go:91-109 | The stored set becomes the new snapshot, and the returned event is its diff against the old set. |
| ClusterDiscovery.ConsulAgent.HandleResult | services/connection-service/notifications/redis_bus/clustered/discovery.go:51-55 | A list of service entries updates the nodes and sends exactly one event, even an empty one. Any other result does nothing. Replaying the sent events gives the node set. |
| ClusterDiscovery.ConsulAgent.Close | services/connection-service/notifications/redis_bus/clustered/discovery.go:75-89 | The first call closes the channel and stops a running plan. A later call returns early and stops nothing. |
| ClusterDiscovery.MovedNodeScenario | services/connection-service/notifications/redis_bus/clustered/discovery.go:91-109 | Two snapshots in which node "a" moves give one addition, then one removal plus one addition. Duplicate entries collapse. |
| ClusteredBus.NodeBus.constructor | services/connection-service/notifications/redis_bus/clustered/clustered_redis_notification_bus.go:64-67 | A node bus keeps its address, the handler current when it was made, and the id its disconnect handler deletes. |
| ClusteredBus.Fanout | services/connection-service/notifications/redis_bus/clustered/clustered_redis_notification_bus.go:35-53 | The same call is issued once on each visited bus, in order. |
| ClusteredBus.Replays | services/connection-service/notifications/redis_bus/clustered/clustered_redis_notification_bus.go:70-75 | One subscription per replayed item, on the new bus, in order. |
| ClusteredBus.ClusteredRedisNotificationBus.constructor | services/connection-service/notifications/redis_bus/clustered/clustered_redis_notification_bus.go:109-121 | No nodes, topics or patterns. The handler is the logging default, and there is a fresh Consul agent for the configured address. |
| ClusteredBus.ClusteredRedisNotificationBus.Start | services/connection-service/notifications/redis_bus/clustered/clustered_redis_notification_bus.go:22-25 | The agent is started. |
| ClusteredBus.ClusteredRedisNotificationBus.Publish | services/connection-service/notifications/redis_bus/clustered/clustered_redis_notification_bus.go:27-33 | The message goes to exactly one node of a non-empty cluster, and to none of an empty one. Nil is always returned. |
| ClusteredBus.ClusteredRedisNotificationBus.Broadcast | services/connection-service/notifications/redis_bus/clustered/clustered_redis_notification_bus.go:37 | The call is issued on every bus of the cluster, once each. |
| ClusteredBus.ClusteredRedisNotificationBus.Subscribe | services/connection-service/notifications/redis_bus/clustered/clustered_redis_notification_bus.go:35-38 | The topic joins `topics` and is subscribed on every current node. |
| ClusteredBus.ClusteredRedisNotificationBus.Unsubscribe | services/connection-service/notifications/redis_bus/clustered/clustered_redis_notification_bus.go:40-43 | The topic leaves `topics` and is unsubscribed on every current node. |
| ClusteredBus.ClusteredRedisNotificationBus.PatternSubscribe | services/connection-service/notifications/redis_bus/clustered/clustered_redis_notification_bus.go:45-48 | The pattern joins `patterns` and is subscribed on every current node. |
| ClusteredBus.ClusteredRedisNotificationBus.PatternUnsubscribe | services/connection-service/notifications/redis_bus/clustered/clustered_redis_notification_bus.go:50-53 | The pattern leaves `patterns` and is unsubscribed on every current node. |
| ClusteredBus.ClusteredRedisNotificationBus.SetMessageHandler | services/connection-service/notifications/redis_bus/clustered/clustered_redis_notification_bus.go:55-57 | Only the stored handler changes. Buses already added keep theirs. |
| ClusteredBus.ClusteredRedisNotificationBus.ReplayOn | services/connection-service/notifications/redis_bus/clustered/clustered_redis_notification_bus.go:70-75 | Subscribes the bus to every item of the set, once each. |
| ClusteredBus.ClusteredRedisNotificationBus.Add | services/connection-service/notifications/redis_bus/clustered/clustered_redis_notification_bus.go:64-79 | A new bus for `host:port`, with the current handler and a disconnect handler for `id`, is started and then subscribed to every topic and every pattern. It is filed under `id`, replacing any previous entry. Every bus of the cluster stays started and subscribed to every topic and pattern kept (`Wired`). |
| ClusteredBus.ClusteredRedisNotificationBus.Remove | services/connection-service/notifications/redis_bus/clustered/clustered_redis_notification_bus.go:81-87 | A present id is deleted, and exactly one call is logged: the close of the bus that was filed under it. An absent id changes nothing and logs nothing. The cluster stays `Wired`. |
| ClusteredBus.ClusteredRedisNotificationBus.OnDisconnect | services/connection-service/notifications/redis_bus/clustered/clustered_redis_notification_bus.go:67 | A node's disconnect handler deletes its own id from the cluster. |
| ClusteredBus.ClusteredRedisNotificationBus.Close | services/connection-service/notifications/redis_bus/clustered/clustered_redis_notification_bus.go:59-62 | One close is logged on every bus of the cluster, once each and in range order. Then the agent closes, and its channel ends up closed. |
| ClusteredBus.ClusteredRedisNotificationBus.AddAll | services/connection-service/notifications/redis_bus/clustered/clustered_redis_notification_bus.go:99-101 | The cluster becomes the old cluster updated by `filed`. `filed` maps exactly the ids of the nodes to fresh buses. Each bus has the handler current now and the id, host and port of a node of the set, and is started and subscribed to every topic and pattern. No bus is closed. |
| ClusteredBus.ClusteredRedisNotificationBus.RemoveAll | services/connection-service/notifications/redis_bus/clustered/clustered_redis_notification_bus.go:102-104 | The ids of the nodes leave the cluster. The calls logged are exactly one close per removed entry, in `closed`'s order. Every bus that was filed under a removed id is closed. |
| ClusteredBus.ClusteredRedisNotificationBus.HandleEventAddsFirst | services/connection-service/notifications/redis_bus/clustered/clustered_redis_notification_bus.go:99-104 | Applied as written, additions then removals, the ids are those `KeysAddsFirst` gives. A bus the additions replace is never closed, so a moved node's old connection leaks. The new bus of an id both added and removed is closed, and the id leaves the cluster. |
| ClusteredBus.AddsFirstLosesMovedNode | services/connection-service/notifications/redis_bus/clustered/clustered_redis_notification_bus.go:99-104 | Applied as written, a node that moves to a new address loses its id from the cluster. |
| ClusteredBus.ClusteredRedisNotificationBus.HandleEventRemovesFirst | services/connection-service/notifications/redis_bus/clustered/clustered_redis_notification_bus.go:99-104 | Applied removals first, the ids are those `KeysRemovesFirst` gives. Every bus filed under a removed id is closed. Each added id gets a fresh bus for a node of `Added`, started and replayed. After the closes, no further bus is closed. |
| ClusteredBus.RemovesFirstTracksSnapshot | services/connection-service/notifications/redis_bus/clustered/clustered_redis_notification_bus.go:99-104 | Removals first, a cluster holding the old snapshot's ids ends with exactly the new snapshot's ids. Both snapshots must give each node its own node name; `SharedNodeNameLost` shows why. |
| ClusteredBus.RemovesFirstFollowsRun | services/connection-service/notifications/redis_bus/clustered/clustered_redis_notification_bus.go:89-107 | Over any run of snapshots in which every node has its own node name, applying their diffs removals first leaves the ids of the last snapshot. |
| ClusteredBus.ClusteredRedisNotificationBus.Watcher | services/connection-service/notifications/redis_bus/clustered/clustered_redis_notification_bus.go:89-107 | The loop ends exactly when the channel is found closed. The bus then closes every bus of the cluster, as the last calls logged, and the agent's channel is closed. Until then the cluster's ids are those the received events give. Throughout, every bus is started and subscribed to every topic and pattern kept. |
| ClusteredBus.ClusteredRedisNotificationBus.AddNode | services/connection-service/notifications/redis_bus/clustered/clustered_redis_notification_bus.go:99-100 | One `add` for one more node of an event: the cluster takes a fresh bus for that node under its id, with the node's host and port and the current handler. The buses filed so far are kept, and no bus is closed. |
| ClusteredBus.ClusteredRedisNotificationBus.AddTurn | services/connection-service/notifications/redis_bus/clustered/clustered_redis_notification_bus.go:99-100 | One turn of the range over `Added`: one node not met yet is added, and the set left to visit shrinks. |
| ClusteredBus.ClusteredRedisNotificationBus.RemoveNode | services/connection-service/notifications/redis_bus/clustered/clustered_redis_notification_bus.go:102-103 | One `remove` for one more node of an event: its id leaves the cluster, and a close is logged for the bus filed under it, if any. |
| ClusteredBus.ClusteredRedisNotificationBus.ApplyEvent | services/connection-service/notifications/redis_bus/clustered/clustered_redis_notification_bus.go:98-104 | One event applied removals first: the ids become those `KeysRemovesFirst` gives, and every bus stays started and subscribed to every topic and pattern kept. |
| ClusteredBus.WiredAdded | services/connection-service/notifications/redis_bus/clustered/clustered_redis_notification_bus.go:64-79 | A bus started and then subscribed to every topic and pattern may be filed under its owner id, and the cluster stays wired. |
| ClusteredBus.WiredSubscribed | services/connection-service/notifications/redis_bus/clustered/clustered_redis_notification_bus.go:35-38 | A topic subscribed on every bus of the cluster may join the topics kept, and the cluster stays wired. |
| ClusteredBus.WiredPatternSubscribed | services/connection-service/notifications/redis_bus/clustered/clustered_redis_notification_bus.go:45-48 | A pattern subscribed on every bus of the cluster may join the patterns kept, and the cluster stays wired. |
| ClusteredBus.AddedStep | services/connection-service/notifications/redis_bus/clustered/clustered_redis_notification_bus.go:99-100 | After one more `add`, the cluster is still the starting cluster updated by the buses filed so far. Each of those serves a node met so far, and none was in the starting cluster. |
| ClusteredBus.RemovedStep | services/connection-service/notifications/redis_bus/clustered/clustered_redis_notification_bus.go:102-103 | After one more `remove`, the cluster is still the starting cluster minus the ids met so far. The buses closed so far are exactly those that were filed under those ids. |
| ClusteredBus.ReplacedNotClosed | services/connection-service/notifications/redis_bus/clustered/clustered_redis_notification_bus.go:99-104 | When the additions replace a bus, the removals that follow never close it: each bus they close is a new one or is still filed under its own id. |
| ClusteredBus.SharedNodeNameLost | services/connection-service/notifications/redis_bus/clustered/clustered_redis_notification_bus.go:99-104 | Two Redis instances on one Consul node share its node name. When one of them goes away, removing it by id drops the other as well, even with removals first. |
| LegacyDiscovery.DurationWholeSeconds | services/connection-service/discovery/discovery.go:39 | A TTL of whole seconds under a minute prints as the count followed by "s". |
| LegacyDiscovery.FracDigitsShift | services/connection-service/discovery/discovery.go:39 | Trailing zeros of a TTL's fraction are dropped. |
| LegacyDiscovery.DurationNegative | services/connection-service/discovery/discovery.go:39 | A negative TTL prints as its magnitude behind a minus sign. |
| LegacyDiscovery.DurationExamples | services/connection-service/discovery/discovery.go:39 | `0s`, and `1.5s` for 1500 ms. |
| LegacyDiscovery.DurationCarries | services/connection-service/discovery/discovery.go:39 | 90 s prints as `1m30s`: seconds carry into minutes. |
| LegacyDiscovery.DurationWholeHour | services/connection-service/discovery/discovery.go:39 | An hour prints as `1h0m0s`, with its zero minutes and seconds written out. |
| LegacyDiscovery.UuidString | services/connection-service/discovery/discovery.go:32 | `Id.String()` is 36 characters long, with dashes at positions 8, 13, 18 and 23. |
| LegacyDiscovery.ServiceRegistration | services/connection-service/discovery/discovery.go:30-42 | The registration copies the id string, name, tags and port. Its check has the agent's check id, TLS verification skipped, and the TTL's string. |
| LegacyDiscovery.UuidStringInjective | services/connection-service/discovery/discovery.go:32 | Distinct agent ids give distinct `Id.String()` texts, so two agents never register under one Consul service id. |
| LegacyDiscovery.JoinedNewIds | services/connection-service/discovery/discovery.go:78-85 | The ids logged as joined are exactly the listed ids not already known. |
| LegacyDiscovery.JoinedOnce | services/connection-service/discovery/discovery.go:78-85 | No id is logged as joined twice in one update, even when entries repeat. |
| LegacyDiscovery.JoinedOnlyJoins | services/connection-service/discovery/discovery.go:78-85 | The first loop logs only "joined" lines. |
| LegacyDiscovery.RemovedLines | services/connection-service/discovery/discovery.go:88-92 | One "removed" line per id, in order. |
| LegacyDiscovery.NodeTracker.constructor | services/connection-service/discovery/discovery.go:71 | The handler starts knowing no node and having logged nothing. |
| LegacyDiscovery.NodeTracker.CollectEntries | services/connection-service/discovery/discovery.go:78-86 | Collects exactly the listed ids, makes them known, and logs a joined line for each new one. |
| LegacyDiscovery.NodeTracker.ReportRemoved | services/connection-service/discovery/discovery.go:88-92 | Logs exactly the known ids missing from the new set, once each. |
| LegacyDiscovery.NodeTracker.HandleResult | services/connection-service/discovery/discovery.go:73-95 | A list of entries logs the joined and removed members, and the known ids become exactly the listed ones. Any other result changes nothing. |
| LegacyServer.UserWsConnections.constructor | websocket/server.go:99-105 | A new holder is empty. |
| LegacyServer.UserWsConnections.AddConnection | websocket/server.go:108-114 | Appends with no duplicate check. |
| LegacyServer.UserWsConnections.RemoveConnection | websocket/server.go:116-121 | Swap-removes the first occurrence, or reports "Element not found" and changes nothing. |
| LegacyServer.UserWsConnections.ForAllConnections | websocket/server.go:123-130 | The block is started once per connection, in holder order. |
| LegacyServer.WSConnections.constructor | websocket/server.go:23-29 | No users. |
| LegacyServer.WSConnections.HolderFor | websocket/server.go:35-40 | Returns the user's holder, created empty when absent. No other user changes. |
| LegacyServer.WSConnections.AppendTo | websocket/server.go:42 | Appends to the user's holder only. |
| LegacyServer.WSConnections.AddConnection | websocket/server.go:31-43 | Creates the holder if absent, then appends `conn`. No other user is affected. |
| LegacyServer.WSConnections.RemoveConnection | websocket/server.go:45-59 | An unknown id returns "No connections for id: …". Otherwise the holder swap-removes `conn` and its error is returned. The holder stays in the map even when left empty. |
| LegacyServer.WSConnections.SendMessage | websocket/server.go:69-91 | An unknown id returns an error. Otherwise every connection that is not Done gets the message, in holder order, and nil is returned. The `default` case makes the skip certain. |
| LegacyServer.WSConnections.SendTextMessage | websocket/server.go:61-63 | As `SendMessage`, with a text frame of the UTF-8 bytes. |
| LegacyServer.WSConnections.SendBinaryMessage | websocket/server.go:65-67 | As `SendMessage`, with a binary frame. |
| LegacyConnection.FirstReadError | websocket/connection.go:161-170 | There is an error exactly when some read fails, and it is that read's error. |
| LegacyConnection.WSConnection.constructor | websocket/connection.go:144-157 | A new connection is open and has received and reported nothing. |
| LegacyConnection.WSConnection.RunMessageReader | websocket/connection.go:159-177 | Frames go to `onMessageReceived` in read order up to the first failure. That failure sets `closed` and is reported once to `onConnectionClosed` (when installed). |
| LegacyConnection.WriteErrors | websocket/connection.go:121-135 | At most one error per connection. |
| LegacyConnection.WriteErrorsAppend | websocket/connection.go:127-134 | Errors come in holder order. |
| LegacyConnection.WriteErrorsNone | websocket/connection.go:121-135 | There are no errors exactly when every write succeeds. |
| LegacyConnection.WriteErrorsFrom | websocket/connection.go:121-135 | Each error is the error of some connection whose write failed. |
| LegacyConnection.UserWsConnections.constructor | websocket/connection.go:97-103 | A new holder is empty. |
| LegacyConnection.UserWsConnections.AddConnection | websocket/connection.go:106-112 | Appends with no duplicate check. |
| LegacyConnection.UserWsConnections.RemoveConnection | websocket/connection.go:114-119 | Swap-removes the first occurrence, or reports it missing and changes nothing. |
| LegacyConnection.UserWsConnections.ForAllConnections | websocket/connection.go:121-135 | Every connection is written, in holder order, and the failures' errors are collected in that order. |
| LegacyConnection.WSConnections.constructor | websocket/connection.go:24-30 | No users. |
| LegacyConnection.WSConnections.HolderFor | websocket/connection.go:42-45 | Returns the user's holder, created empty when absent. |
| LegacyConnection.WSConnections.AppendTo | websocket/connection.go:48 | Appends to the user's holder only. |
| LegacyConnection.WSConnections.AddConnection | websocket/connection.go:32-49 | A connection already closed by its reader leaves the registry unchanged. Otherwise the holder is created on first use and `conn` appended. |
| LegacyConnection.WSConnections.RemoveConnection | websocket/connection.go:51-65 | An unknown id returns a not-found error. Otherwise the holder's swap-removal error is returned. Holders are never removed. |
| LegacyConnection.WSConnections.SendMessage | websocket/connection.go:75-89 | An unknown id gives a one-element error list. Otherwise every connection is written and one error comes back per failing write, in holder order. |
| LegacyConnection.WSConnections.SendTextMessage | websocket/connection.go:67-69 | As `SendMessage`, with a text frame of the UTF-8 bytes. |
| LegacyConnection.WSConnections.SendBinaryMessage | websocket/connection.go:71-73 | As `SendMessage`, with a binary frame. |
| GoStrings.CutPrefix | main.go:47 | `found` holds exactly when `s` has the prefix. The prefix plus the rest is `s`, and without the prefix `s` comes back untouched. |
| GoStrings.CutPrefixOfConcat | main.go:47 | Cutting the prefix off `prefix + rest` gives `rest`. |
| ChatWiring.UserIdOf | main.go:47 | A prefixed topic names the user whose topic it is. An unprefixed topic passes through as the id, because `found` is dropped. |
| ChatWiring.UserTopicRoundTrip | main.go:47-54 | Stripping the formatted topic of a user gives that user back. |
| ChatWiring.UserTopicInjective | main.go:54-57 | Two users share a topic exactly when they are the same user. |
| ChatWiring.Request | main.go:52-59 | A connect subscribes and a disconnect unsubscribes, each on the topic of the user concerned. |
| ChatWiring.Requests | main.go:52-59 | One bus request per callback invocation, in order. |
| ChatWiring.UserTopicsAdd | main.go:53-55 | Connecting a user adds exactly that user's topic. |
| ChatWiring.UserTopicsRemove | main.go:56-58 | Disconnecting a user removes exactly that user's topic and no other user's. |
| ChatWiring.ConnectKeepsStep | main.go:52-59 | A registration keeps the bus subscribed to exactly the connected users' topics. Only a first connection subscribes. |
| ChatWiring.DisconnectKeepsStep | main.go:52-59 | An eviction keeps the bus subscribed to exactly the connected users' topics. It unsubscribes the evicted user's topic. |
| ChatWiring.DeliverNotification | main.go:45-50 | A message on the topic of a connected user reaches every live connection of that user as a text frame. A topic naming no connected user gets the registry's error. |
| ChatWiring.ChatServer.constructor | main.go:21-27 | The registry starts with both callbacks installed, no users and no bus requests. |
| ChatWiring.ChatServer.UserConnects | main.go:53-55 | A user's first connection asks the bus to subscribe to the user's topic, and later connections ask nothing. The bus stays subscribed to exactly the connected users' topics. |
| ChatWiring.ChatServer.UserDisconnects | main.go:56-58 | The removal that evicts a user asks the bus to unsubscribe from that user's topic, and other removals ask nothing. The bus stays in step. |
| ChatWiring.ChatServer.Notify | main.go:45-50 | A message on any subscribed topic reaches every live connection of that topic's user, and only theirs. |
| ServiceWiring.UserPatternCoversUserTopics | services/connection-service/main.go:37-39 | `/to/user/*` matches every user's topic, and the handler reads the user back from it. |
| ServiceWiring.MatchedTopicNamesUser | services/connection-service/main.go:37-40 | Any topic the pattern matches is the topic of the user the handler sends to. |
| ServiceWiring.SetUpNotificationHandlers | services/connection-service/main.go:36-42 | `/to/user/*` is pattern-subscribed on every node and then the handler is installed. Topics are untouched. |
| ServiceWiring.Outgoing | services/connection-service/main.go:44-58 | At most one publish per turn. |
| ServiceWiring.OutgoingInOrder | services/connection-service/main.go:46-56 | The published payloads are the read messages' data, unchanged and in read order. None is published after Done, and the loop stops exactly at the first Done. |
| ServiceWiring.OutgoingUpTo | services/connection-service/main.go:46-56 | A loop that read `sent` and then saw Done published exactly `Outgoing`. |
| ServiceWiring.ServeConnection | services/connection-service/main.go:44-58 | Each message read before Done is published to `/to/user/1`, with its data unchanged and in order, on a node of the cluster (none when the cluster is empty). The loop returns exactly when the connection is Done. |
| ServiceConfig.ValidateRedis | services/connection-service/config/config.go:47-53 | An error exactly when neither a single node nor a cluster is configured. One or both is valid. The error is the fixed "No defined config for redis bus…" text. |
| ServiceConfig.ValidateConfig | services/connection-service/config/config.go:86-91 | Exactly the Redis section's verdict. Nothing else is checked. |

## Left out

- Mutexes, goroutines and channel blocking are not modelled: every call runs alone, and a `go` call is issued where it appears. Races are out of scope, including the destroyed-holder race that `WSServer.AddConnection`'s retry loop exists for.
- ConnectionServer.WSServer.AddConnection: the retry branch is not written. In the sequential model every holder in the map is live, which `TryAdd` proves (`err == None`), so the first pass always succeeds. The branch that returns any other add error is also absent, because `userWsConnections.AddConnection` returns no other error.
- Logging is left out, including the publish-error log in `MakeWsConnectionHandler`. `ClusteredRedisNotificationBus.Publish` always returns nil, so that log can never fire.
- Process entry points are left out:
  - the `main()` bodies
  - `ReadConfig` and `readFromConfigFile` (viper)
  - `StartNotificationBus` and `StartConsul` in main.go
  - `registerService`, `healthChecker`, `NewConsul` and the plan run in the older discovery agent
  - the HTTP handlers and authorizers
  - the database code
- The single-node Redis bus and its go-redis wrappers are not part of this model. A node bus is a `NodeBus` handle, and the calls made on it are logged.
- Real time is not modelled: deadlines, the ticker period, the pong handler, the read limit's effect on reads, and the TTL heartbeat. The writer's ticks are events of its schedule.
- `rand.Int()` in `ForRandomEntry` is the `rnd` parameter, and Go's map iteration order is a nondeterministic choice. So `ForRandomEntry` promises an entry of the map, not which one.
- `WritePump()`, `ReadPump()` and `ClusterWatcher()` only return a channel, and are not separate members. The queues and the event log are fields.
- `watch.Parse` failing (`log.Fatal`) is not modelled. `ConsulAgent.Start` begins after a successful parse, and whether running the plan fails is an input.
- The root main.go calls `websocket.NewWSServer` and its callback setters, which neither of the two root websocket snapshots defines. The root package's `WSServer` is not part of this model, so `ChatWiring` wires the connection service's `WSServer`, which has that API.
- Go strings may hold bytes that are not UTF-8. Here a string is a sequence of Unicode scalar values, so `[]byte(s)` is always a valid encoding.
- `WsConfig.BufferSize` and `RedisConfig.UserTopic` of the service configuration are read by no modelled code. They are carried in the datatypes only.
- ClusteredBus.ClusteredRedisNotificationBus.Watcher applies each event removals first: it uses the corrected member of the finding below. The order as written is `HandleEventAddsFirst`.
- ClusteredBus.RemovesFirstTracksSnapshot and ClusteredBus.RemovesFirstFollowsRun: both assume that no two nodes of a snapshot share a node name (`UniqueIds`). The cluster is keyed by the Consul node name, so two Redis instances registered on one Consul node share an id. When one of them goes away, removing it by id drops the other as well; `ClusteredBus.SharedNodeNameLost` proves this. Keying the cluster by host and port would be the fix, and is not modelled.
- ServiceWiring.ServeConnection: says that each publish goes to some node of the cluster, but not which one `rnd` selects, as `ForRandomEntry` does.

## Findings

| source | as written | input that shows it | evidently intended | confidence | as-written member | corrected member |
|---|---|---|---|---|---|---|
| services/connection-service/notifications/redis_bus/clustered/clustered_redis_notification_bus.go:99-104 | Each event is applied as every `Added` node then every `Removed` node, both keyed by `NodeId`. | Node "a" moves from 10.0.0.1:6379 to 10.0.0.2:6379. The event has Added = {a@10.0.0.2} and Removed = {a@10.0.0.1}. `add("a", …)` files a new bus over the old one, so the old bus is never closed. `remove("a")` then deletes "a" and closes the new bus. The cluster ends with no bus for a node that is up. `HandleEventAddsFirst` proves, for every event, that a replaced bus is never closed. | The cluster holds a bus for exactly the ids of the latest snapshot, provided no two nodes of a snapshot share a node name. | not executed; high, the counterexample is proved | ClusteredBus.AddsFirstLosesMovedNode | ClusteredBus.RemovesFirstTracksSnapshot |
