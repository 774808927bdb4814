# Chat room hub and connections, modelled in Dafny

This project models the core of a small WebSocket chat room written in Go.

A single **hub** owns the set of live **servers** (one per browser connection) and handles three kinds of event, one at a time:

- **Register** adds a server.
- **Unregister** removes a member and closes its outbound channel.
- **Broadcast** offers a frame to every member. The offer is a non-blocking send on an unbuffered channel. A member whose writer is not waiting at that moment is evicted on the spot: its channel is closed and it is removed from the set.

Each server runs two loops:

- The **read loop** takes the first non-empty message as the connection's label. It relays every later message to the hub as `label:message`. On a read error it unregisters itself.
- The **write loop** writes the frames its channel hands over, in order. When the channel is closed it writes one close frame and stops. It also stops at the first failed write.

The files:

- `wire.dfy` (module `Wire`): byte strings, the `label:message` frame, and how a receiver would split a frame at the first colon.
- `hub.dfy` (module `Hub`): the hub state as a value (`HubState`) with one function per event, trace lemmas over it, and the class `Hub`, whose methods update the live set and the channel map in place.
- `server.dfy` (module `Server`): the read loop as a function and as a method of class `Server` that updates the label field, the write loop as a method, and connection set-up.

Modelling choices:

- A server handle is the type parameter `S` of `Hub`, compared by identity like the Go pointer. The `Server` module uses `Hub<Server>`.
- A channel is a `Queue`: the frames already handed to the writer, plus an `open` flag.
- Sending on a closed channel, or closing one twice, makes Go panic. So `Deliver` and `Close` require an open channel. The verifier therefore proves that the hub never closes a channel twice and never sends on a closed one.
- Which writers are ready to receive is outside the hub's control. It is an input: the set `ready` given with each broadcast.
- The socket is abstracted. Inbound traffic is a sequence of `Inbound` results. Which text writes fail is a set of positions.

Points where the code's behaviour is easy to misread:

- The code takes the first **non-empty** message as the label. An empty first message leaves the label empty (`chatRoom/server.go:58`).
- A read error sends Unregister **twice**: once in the loop (`chatRoom/server.go:54`) and once in the deferred cleanup (`chatRoom/server.go:42`). The hub ignores the second one (`Hub.UnregisterIdempotent`).
- The fan-out loop has no self-exclusion, so a sender receives its own frame (`Server.SenderAlsoReceives`).
- The outbound channel is unbuffered (`chatRoom/server.go:125`). "Can accept" therefore means "the writer is waiting".

## Model

| member | source | states |
|---|---|---|
| `Wire.Join` | chatRoom/server.go:61 | the relayed frame is the label, one colon byte, then the message, of length \|label\| + 1 + \|message\| |
| `Wire.SplitJoin` | chatRoom/server.go:61 | when the label contains no colon, splitting a frame at its first colon gives back exactly the label and the message |
| `Wire.JoinAmbiguousWithColonInLabel` | chatRoom/server.go:61 | no escaping is done: a colon inside a label lets two different (label, message) pairs produce the same frame |
| `Hub.Deliver` | chatRoom/hub.go:29 | a send requires an open channel (Go panics on a send to a closed one); the channel stays open, earlier frames are kept as a prefix, and exactly the sent frame is added at the back |
| `Hub.Close` | chatRoom/hub.go:24 | closing requires an open channel (Go panics on a second close); the channel becomes closed with its frames kept |
| `Hub.Visit` | chatRoom/hub.go:28-33 | one member's select during a broadcast: the channel stays open exactly when the writer accepted, earlier frames are kept, and the frame is appended only when accepted |
| `Hub.Initial` | main.go:22-27 | a new hub has no servers and satisfies the invariant |
| `Hub.Registered` | chatRoom/hub.go:19-20 | Register adds exactly the new server, with an empty open channel; no other membership or channel changes; the invariant is kept |
| `Hub.Unregistered` | chatRoom/hub.go:21-25 | Unregister of a member removes exactly it and closes exactly its channel, keeping the frames; for a non-member the state is unchanged; the invariant is kept |
| `Hub.Broadcasted` | chatRoom/hub.go:26-34 | the live set becomes the members that were ready, so no member is added; each ready member gets exactly the frame appended and stays open; each unready member is closed with its frames kept; channels of non-members are untouched |
| `Hub.Step` | chatRoom/hub.go:17-35 | each event handled by the select loop keeps the invariant: a channel is open exactly while its server is a member |
| `Hub.Run` | chatRoom/hub.go:16-37 | any admissible trace of events keeps the invariant, and the known channels grow only by the servers the trace registers |
| `Hub.RegistryConsistency` | chatRoom/hub.go:19-33 | after any admissible trace, a server is live exactly when it was live at the start or was registered at some point, and after that point no Unregister of it came and it was ready at every broadcast (`LiveAfter`, stated over the trace without the hub's step function) |
| `Hub.RunAppend` | chatRoom/hub.go:16-37 | an admissible trace splits into an admissible head and a tail admissible from the state the head leaves; handling the concatenation is handling the head, then the tail |
| `Hub.ClosedQueueFrozen` | chatRoom/hub.go:22-32 | once a channel is closed it is never closed again and never receives another frame, over any later trace |
| `Hub.ClosedQueueStaysFrozen` | chatRoom/hub.go:22-32 | a channel closed at any point of a run (from the initial hub, say) is exactly as it was then at the end of the run |
| `Hub.UnregisterIdempotent` | chatRoom/hub.go:22 | a second Unregister of the same server changes nothing, so it cannot close a channel twice |
| `Hub.VisitOne` | chatRoom/hub.go:28-33 | one iteration of the range loop: the visited member stays exactly when it was ready, its channel is `Visit`ed, every other member and channel is unchanged, and the invariant is kept |
| `Hub.BroadcastInOrder` | chatRoom/hub.go:27-33 | visiting members one at a time in a given order, each send or eviction keeps the invariant |
| `Hub.BroadcastOrderIrrelevant` | chatRoom/hub.go:27-33 | visiting the members in any order (each exactly once) gives the same state as the order-free definition of Broadcast |
| `Hub.Hub.constructor` | main.go:22-27 | the hub starts with an empty set of servers |
| `Hub.Hub.Register` | chatRoom/hub.go:19-20 | the new state is `Registered` of the old one, and the invariant is kept |
| `Hub.Hub.Unregister` | chatRoom/hub.go:21-25 | the new state is `Unregistered` of the old one, and the invariant is kept |
| `Hub.Hub.Broadcast` | chatRoom/hub.go:26-34 | the loop over the members, each picked arbitrarily and deleted in place if not ready, ends in exactly `Broadcasted` of the old state |
| `Hub.Hub.Handle` | chatRoom/hub.go:17-35 | one turn of the select loop moves the state by `Step` |
| `Server.ReadLoop` | chatRoom/server.go:40-64 | the read loop stops exactly when some read fails; it emits at most one event per inbound result plus one; every event is a broadcast except the trailing Unregisters of itself after a read error |
| `Server.LabelKept` | chatRoom/server.go:58-62 | once the label is non-empty, no later message changes it |
| `Server.RelaysEveryMessage` | chatRoom/server.go:45-63 | with the label set and no read error, the n-th message is relayed as exactly `label:message`, in order, one event per message, and the loop keeps reading |
| `Server.EmptyMessagesSkipped` | chatRoom/server.go:58-59 | while the label is empty, any run of empty messages is dropped: the loop ends exactly as if they had never arrived, whether or not a non-empty message follows |
| `Server.FirstNonEmptyMessageIsLabel` | chatRoom/server.go:58-59 | after a run of empty messages, the first non-empty message becomes the label and is not relayed; the loop then goes on with that label |
| `Server.OnlyEmptyMessagesRelayNothing` | chatRoom/server.go:58-59 | a connection that sends only empty messages relays nothing, keeps an empty label and is still reading |
| `Server.ReadErrorUnregisters` | chatRoom/server.go:40-56 | at the first read error the loop stops, ignores all later input, and its events end with two Unregisters of itself, all earlier events being broadcasts |
| `Server.Write` | chatRoom/server.go:66-84 | writes the channel's frames as text in FIFO order; on a closed channel with no failure it writes exactly one close frame, last; at the first failed write it stops, writing nothing further; otherwise it waits with every frame written |
| `Server.Server.constructor` | chatRoom/server.go:122-127 | a new server has an empty label |
| `Server.Server.Read` | chatRoom/server.go:40-64 | the loop's final label, the events it sent and whether it stopped are exactly those of `ReadLoop` |
| `Server.MakeWebsocket` | chatRoom/server.go:112-134 | after a successful upgrade a fresh server with an empty label and an empty open channel is registered; after a failed upgrade nothing changes |
| `Server.SenderAlsoReceives` | chatRoom/hub.go:27-29 | with two registered servers, "alice" then "hi" from the first yields one frame `alice:hi`, which lands in both channels, the sender's included |

## Left out

- `heartBeat` (chatRoom/server.go:86-110) is not modelled: it is driven entirely by a ticker, wall-clock read deadlines and ping frames. Its effect on the model is only that a read can fail, and read failures are an input.
- The protocol upgrade and the `upgrader` settings (chatRoom/server.go:22-28, 114) are a foreign library call. Their success is the `upgraded` input of `MakeWebsocket`.
- The HTTP routing, template serving and process start in main.go are not modelled; only the hub's initial state (main.go:22-27) is.
- Goroutines, and the blocking of senders on the hub's own unbuffered `Register`, `Unregister` and `Broadcast` channels, are not modelled. The hub is modelled as handling one event at a time, in the order events reach it.
- Channel readiness is taken as a snapshot per broadcast (`ready`), not as something that changes while the hub loops over the members. Every per-member outcome can still be expressed, because each member is offered the frame exactly once.
- The model does not link the write loop to readiness: a writer that stopped is in practice never ready again, which the model leaves to the caller who chooses `ready`.
- `websocket.IsUnexpectedCloseError` and `log.Printf` (chatRoom/server.go:50-51, 80, 116) only affect diagnostics and are left out. The message type returned by `ReadMessage` is ignored, as it is in the code.
- `conn.Close` calls are not modelled as socket operations. For the read loop, `closed` records that the deferred close ran. For the write loop, any end other than `Waiting` means it ran.
- Hub.Hub.Register: requires a server the hub has never seen. `MakeWebsocket` always registers a freshly built server. Registering a server again after it left would make the code panic on its next send.
