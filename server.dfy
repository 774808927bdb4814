/**
  One browser connection: its read loop, its write loop, and how it is
  created and handed to the hub.

  The socket is abstracted away. What the read loop receives is a sequence
  of inbound results (a message or a read error). What the write loop
  produces is the sequence of frames it writes. Whether a given text write
  fails is an input: the set of positions that fail.
 */
module Server {
  import opened Wire
  import Hub

  /** The result of one ReadMessage call. */
  datatype Inbound = Message(data: Bytes) | ReadFailed

  /** Where the read loop stands after a run of inbound results. */
  datatype ReadOutcome<S> = ReadOutcome(name: Bytes, events: seq<Hub.Event<S>>, stopped: bool)

  /**
    The read loop of server `self`, started with label `name`. While the
    label is empty, a message becomes the label and nothing is sent to the
    hub. Once it is set, every message goes to the hub as `label:message`.
    A read error sends Unregister, leaves the loop, and the deferred cleanup
    sends Unregister a second time and closes the connection.
   */
  function ReadLoop<S>(self: S, name: Bytes, inbound: seq<Inbound>): (r: ReadOutcome<S>)
    ensures r.stopped <==> exists i :: 0 <= i < |inbound| && inbound[i].ReadFailed?
    ensures |r.events| <= |inbound| + 1
    ensures forall i :: 0 <= i < |r.events| ==>
      r.events[i].Broadcast? || (r.stopped && |r.events| - 2 <= i && r.events[i] == Hub.Unregister(self))
    decreases |inbound|
  {
    if inbound == [] then ReadOutcome(name, [], false)
    else
      match inbound[0]
      case ReadFailed => ReadOutcome(name, [Hub.Unregister(self), Hub.Unregister(self)], true)
      case Message(m) =>
        if |name| == 0 then ReadLoop(self, m, inbound[1..])
        else
          var rest := ReadLoop(self, name, inbound[1..]);
          ReadOutcome(rest.name, [Hub.Broadcast(Join(name, m))] + rest.events, rest.stopped)
  }

  /** No read error among the inbound results. */
  ghost predicate AllMessages(inbound: seq<Inbound>) {
    forall i :: 0 <= i < |inbound| ==> inbound[i].Message?
  }

  /** Once the label is set it never changes. */
  lemma {:induction false} LabelKept<S>(self: S, name: Bytes, inbound: seq<Inbound>)
    requires |name| > 0
    ensures ReadLoop(self, name, inbound).name == name
    decreases |inbound|
  {
    if inbound != [] && inbound[0].Message? {
      LabelKept(self, name, inbound[1..]);
    }
  }

  /**
    With the label set and no read error, every message is relayed, in
    order, as exactly `label:message`, and the loop is still reading.
   */
  lemma {:induction false} RelaysEveryMessage<S>(self: S, name: Bytes, inbound: seq<Inbound>)
    requires |name| > 0 && AllMessages(inbound)
    ensures var out := ReadLoop(self, name, inbound);
      && !out.stopped
      && |out.events| == |inbound|
      && forall i :: 0 <= i < |inbound| ==> out.events[i] == Hub.Broadcast(Join(name, inbound[i].data))
    decreases |inbound|
  {
    if inbound != [] {
      assert inbound[0].Message?;
      assert forall i :: 0 <= i < |inbound[1..]| ==> inbound[1..][i] == inbound[i + 1];
      RelaysEveryMessage(self, name, inbound[1..]);
    }
  }

  /**
    While the label is empty, empty messages are read and dropped: they
    leave the label empty and send nothing. This holds whether or not a
    non-empty message ever follows (k may be the whole input).
   */
  lemma {:induction false} EmptyMessagesSkipped<S>(self: S, inbound: seq<Inbound>, k: nat)
    requires k <= |inbound|
    requires forall j :: 0 <= j < k ==> inbound[j] == Message([])
    ensures ReadLoop(self, [], inbound) == ReadLoop(self, [], inbound[k..])
    decreases k
  {
    if k > 0 {
      assert inbound[0] == Message([]);
      assert inbound[1..][k - 1..] == inbound[k..];
      EmptyMessagesSkipped(self, inbound[1..], k - 1);
    }
  }

  /** After a run of empty messages, the first non-empty message becomes the label and is not relayed. */
  lemma FirstNonEmptyMessageIsLabel<S>(self: S, inbound: seq<Inbound>, k: nat)
    requires k < |inbound| && inbound[k].Message? && |inbound[k].data| > 0
    requires forall j :: 0 <= j < k ==> inbound[j] == Message([])
    ensures ReadLoop(self, [], inbound) == ReadLoop(self, inbound[k].data, inbound[k + 1..])
  {
    EmptyMessagesSkipped(self, inbound, k);
    assert inbound[k..][0] == inbound[k];
    assert inbound[k..][1..] == inbound[k + 1..];
  }

  /** A connection that only ever sends empty messages relays nothing and keeps an empty label. */
  lemma {:induction false} OnlyEmptyMessagesRelayNothing<S>(self: S, inbound: seq<Inbound>)
    requires forall j :: 0 <= j < |inbound| ==> inbound[j] == Message([])
    ensures ReadLoop(self, [], inbound) == ReadOutcome([], [], false)
  {
    EmptyMessagesSkipped(self, inbound, |inbound|);
    assert inbound[|inbound|..] == [];
  }

  /**
    A read error ends the loop: everything after it is ignored, and the
    events end with two Unregisters of the server itself.
   */
  lemma {:induction false} ReadErrorUnregisters<S>(self: S, name: Bytes, inbound: seq<Inbound>, k: nat)
    requires k < |inbound| && inbound[k].ReadFailed? && AllMessages(inbound[..k])
    ensures var before := ReadLoop(self, name, inbound[..k]);
      var out := ReadLoop(self, name, inbound);
      && out.stopped && !before.stopped
      && out.name == before.name
      && out.events == before.events + [Hub.Unregister(self), Hub.Unregister(self)]
      && forall i :: 0 <= i < |before.events| ==> before.events[i].Broadcast?
    decreases k
  {
    if k > 0 {
      assert inbound[..k][0] == inbound[0];
      assert inbound[1..][..k - 1] == inbound[..k][1..];
      var tail := inbound[1..][..k - 1];
      assert AllMessages(tail) by {
        forall i | 0 <= i < |tail| ensures tail[i].Message? {
          assert tail[i] == inbound[..k][i + 1];
        }
      }
      ReadErrorUnregisters(self, if |name| == 0 then inbound[0].data else name, inbound[1..], k - 1);
    }
  }

  /** One frame the write loop puts on the socket. */
  datatype Outbound = Text(payload: Bytes) | CloseFrame

  /** Why the write loop is where it is. */
  datatype WriteEnd =
    | Waiting      // still blocked on the channel, which is open and drained
    | SentClose    // the channel was closed: one close frame was written, loop left
    | WriteFailed  // a text write failed: loop left

  /**
    The write loop of a server whose channel has handed over `msg.frames`
    and is closed iff `!msg.open`. A text write at position i fails iff
    i is in `failing`; the close frame's own write error is ignored.
    On leaving (any end but Waiting) the connection is closed.
   */
  method Write(msg: Hub.Queue, failing: set<nat>) returns (written: seq<Outbound>, end: WriteEnd)
    ensures |written| <= |msg.frames| + 1
    ensures forall j :: 0 <= j < |written| ==>
      written[j] == if j < |msg.frames| then Text(msg.frames[j]) else CloseFrame
    ensures end == WriteFailed <==> exists k :: 0 <= k < |msg.frames| && k in failing
    ensures end == WriteFailed ==>
      && |written| > 0
      && |written| - 1 in failing
      && forall j :: 0 <= j < |written| - 1 ==> j !in failing
    ensures end != WriteFailed ==> (end == SentClose <==> !msg.open)
    ensures end == SentClose ==> |written| == |msg.frames| + 1
    ensures end == Waiting ==> |written| == |msg.frames|
  {
    written := [];
    var i := 0;
    while i < |msg.frames|
      invariant 0 <= i <= |msg.frames|
      invariant |written| == i
      invariant forall j :: 0 <= j < i ==> written[j] == Text(msg.frames[j])
      invariant forall j :: 0 <= j < i ==> j !in failing
    {
      written := written + [Text(msg.frames[i])];
      if i in failing {
        end := WriteFailed;
        return;
      }
      i := i + 1;
    }
    if msg.open {
      end := Waiting;
    } else {
      written := written + [CloseFrame];
      end := SentClose;
    }
  }

  /** The per-connection state the loops share: the label. */
  class Server {
    var frontName: Bytes

    /** A new server starts without a label. */
    constructor ()
      ensures frontName == []
    {
      frontName := [];
    }

    /**
      Runs the read loop over `inbound`; returns the events sent to the hub
      and whether the loop has left (and closed the connection).
     */
    method Read(inbound: seq<Inbound>) returns (events: seq<Hub.Event<Server>>, closed: bool)
      modifies this
      ensures ReadOutcome(frontName, events, closed) == ReadLoop(this, old(frontName), inbound)
    {
      events := [];
      closed := false;
      var i := 0;
      while i < |inbound|
        invariant 0 <= i <= |inbound|
        invariant var rest := ReadLoop(this, frontName, inbound[i..]);
          ReadLoop(this, old(frontName), inbound) == ReadOutcome(rest.name, events + rest.events, rest.stopped)
      {
        assert inbound[i..][1..] == inbound[i + 1..];
        match inbound[i]
        case ReadFailed =>
          events := events + [Hub.Unregister(this)];
          events := events + [Hub.Unregister(this)];
          closed := true;
          return;
        case Message(m) =>
          if |frontName| == 0 {
            frontName := m;
          } else {
            events := events + [Hub.Broadcast(Join(frontName, m))];
          }
        i := i + 1;
      }
    }
  }

  /**
    A new connection: if the protocol upgrade succeeded, a server with an
    empty label and a fresh open channel is built and registered before its
    loops start; otherwise nothing happens.
   */
  method MakeWebsocket(hub: Hub.Hub<Server>, upgraded: bool) returns (r: Option<Server>)
    requires hub.Valid()
    modifies hub
    ensures hub.Valid()
    ensures !upgraded ==> r.None? && hub.State() == old(hub.State())
    ensures upgraded ==> && r.Some? && fresh(r.value) && r.value.frontName == []
                         && hub.State() == Hub.Registered(old(hub.State()), r.value)
  {
    if !upgraded {
      return None;
    }
    var server := new Server();
    hub.Register(server);
    r := Some(server);
  }

  /**
    The scenario of two connections: both registered, the first sends
    "alice" and then "hi". One frame, `alice:hi`, reaches the hub, and with
    both writers waiting it lands in both channels, the sender's included.
   */
  lemma SenderAlsoReceives<S>(c1: S, c2: S, alice: Bytes, hi: Bytes)
    requires c1 != c2 && |alice| > 0
    ensures ReadLoop(c1, [], [Message(alice), Message(hi)]).events == [Hub.Broadcast(Join(alice, hi))]
    ensures var h := Hub.Registered(Hub.Registered(Hub.Initial(), c1), c2);
      var h' := Hub.Broadcasted(h, Join(alice, hi), {c1, c2});
      && h'.servers == {c1, c2}
      && h'.queues[c1].frames == [Join(alice, hi)]
      && h'.queues[c2].frames == [Join(alice, hi)]
  {
    var inbound := [Message(alice), Message(hi)];
    assert inbound[1..] == [Message(hi)];
    assert ReadLoop(c1, [], inbound) == ReadLoop(c1, alice, [Message(hi)]);
    assert [Message(hi)][1..] == [];
    assert ReadLoop(c1, alice, [Message(hi)]).events == [Hub.Broadcast(Join(alice, hi))];
  }
}
