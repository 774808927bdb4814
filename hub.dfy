/**
  The chat hub: the single event loop that owns the set of live servers
  and fans every broadcast frame out to them.

  `S` stands for a server handle (a `*Server` pointer, compared by
  identity). Each server's outbound channel is unbuffered: a send from the
  hub succeeds only when that server's writer is waiting to receive, so a
  channel's state is the frames its writer has been handed so far plus
  whether it has been closed. Which writers are waiting when a broadcast
  arrives is outside the hub's control and is given as the set `ready`.
 */
module Hub {
  import opened Wire

  /** One server's outbound channel, as far as the hub is concerned. */
  datatype Queue = Queue(frames: seq<Bytes>, open: bool)

  /** A fresh, empty, open channel (make(chan []byte)). */
  const EMPTY_QUEUE := Queue([], true)

  /** A send hands the frame to the writer; sending on a closed channel would panic. */
  function Deliver(q: Queue, frame: Bytes): (r: Queue)
    requires q.open
    ensures r.open && q.frames <= r.frames
    ensures |r.frames| == |q.frames| + 1 && r.frames[|q.frames|] == frame
  {
    q.(frames := q.frames + [frame])
  }

  /** close(ch); closing a channel that is already closed would panic. */
  function Close(q: Queue): (r: Queue)
    requires q.open
    ensures !r.open && r.frames == q.frames
  {
    q.(open := false)
  }

  /** The three kinds of event the hub's select loop receives. */
  datatype Event<S> = Register(server: S) | Unregister(server: S) | Broadcast(frame: Bytes)

  /** An event as it reaches the hub, with the writers that are waiting at that moment. */
  datatype Arrival<S> = Arrival(event: Event<S>, ready: set<S>)

  /**
    The hub's state: the live set and the channel of every server that has
    ever been registered.
   */
  datatype HubState<S> = HubState(servers: set<S>, queues: map<S, Queue>) {
    /**
      Every member has a channel, and a channel is open exactly while its
      server is a member: it is closed at the moment its server leaves.
     */
    ghost predicate Valid() {
      && servers <= queues.Keys
      && forall s :: s in queues ==> (queues[s].open <==> s in servers)
    }
  }

  /** The state a new hub starts in: no servers. */
  function Initial<S>(): (h: HubState<S>)
    ensures h.Valid() && h.servers == {}
  {
    HubState({}, map[])
  }

  /** Register: a new server with a fresh open channel joins the set. */
  function Registered<S>(h: HubState<S>, s: S): (h': HubState<S>)
    requires h.Valid() && s !in h.queues
    ensures h'.Valid()
    ensures h'.servers == h.servers + {s} && s !in h.servers
    ensures h'.queues.Keys == h.queues.Keys + {s}
    ensures h'.queues[s] == EMPTY_QUEUE
    ensures forall t :: t in h.queues ==> h'.queues[t] == h.queues[t]
  {
    HubState(h.servers + {s}, h.queues[s := EMPTY_QUEUE])
  }

  /** Unregister: a member is removed and its channel closed; anyone else is ignored. */
  function Unregistered<S>(h: HubState<S>, s: S): (h': HubState<S>)
    requires h.Valid()
    ensures h'.Valid()
    ensures h'.servers == h.servers - {s}
    ensures h'.queues.Keys == h.queues.Keys
    ensures s in h.servers ==> h'.queues[s] == Queue(h.queues[s].frames, false)
    ensures forall t :: t in h.queues && t != s ==> h'.queues[t] == h.queues[t]
    ensures s !in h.servers ==> h' == h
  {
    if s in h.servers then HubState(h.servers - {s}, h.queues[s := Close(h.queues[s])])
    else h
  }

  /** What one broadcast does to one member's channel: hand over the frame, or evict. */
  function Visit(q: Queue, frame: Bytes, accepted: bool): (r: Queue)
    requires q.open
    ensures r.open <==> accepted
    ensures q.frames <= r.frames && |r.frames| == |q.frames| + (if accepted then 1 else 0)
    ensures accepted ==> r.frames[|q.frames|] == frame
  {
    if accepted then Deliver(q, frame) else Close(q)
  }

  /** The channels after visiting every server in `targets`. */
  function Fanned<S>(queues: map<S, Queue>, targets: set<S>, frame: Bytes, ready: set<S>): map<S, Queue>
    requires forall s :: s in targets && s in queues ==> queues[s].open
  {
    map s | s in queues :: if s in targets then Visit(queues[s], frame, s in ready) else queues[s]
  }

  /**
    Broadcast: every member that is ready gets exactly the one frame appended
    and stays; every member that is not ready is closed and dropped.
   */
  function Broadcasted<S>(h: HubState<S>, frame: Bytes, ready: set<S>): (h': HubState<S>)
    requires h.Valid()
    ensures h'.Valid()
    ensures h'.servers == h.servers * ready
    ensures h'.queues.Keys == h.queues.Keys
    ensures forall s :: s in h.servers && s in ready ==> h'.queues[s] == Queue(h.queues[s].frames + [frame], true)
    ensures forall s :: s in h.servers && s !in ready ==> h'.queues[s] == Queue(h.queues[s].frames, false)
    ensures forall s :: s in h.queues && s !in h.servers ==> h'.queues[s] == h.queues[s]
  {
    HubState(h.servers * ready, Fanned(h.queues, h.servers, frame, ready))
  }

  /** What the hub may be asked: Register only ever sees a server it has never seen. */
  ghost predicate Allowed<S>(h: HubState<S>, a: Arrival<S>) {
    a.event.Register? ==> a.event.server !in h.queues
  }

  /** One turn of the select loop. */
  function Step<S>(h: HubState<S>, a: Arrival<S>): (h': HubState<S>)
    requires h.Valid() && Allowed(h, a)
    ensures h'.Valid()
  {
    match a.event
    case Register(s) => Registered(h, s)
    case Unregister(s) => Unregistered(h, s)
    case Broadcast(frame) => Broadcasted(h, frame, a.ready)
  }

  /** The servers a trace registers. */
  function RegisteredIn<S>(trace: seq<Arrival<S>>): set<S> {
    set i | 0 <= i < |trace| && trace[i].event.Register? :: trace[i].event.server
  }

  /** Each server is registered at most once, and only if it was not known at the start. */
  ghost predicate Admissible<S>(h: HubState<S>, trace: seq<Arrival<S>>) {
    forall i :: 0 <= i < |trace| && trace[i].event.Register? ==>
      && trace[i].event.server !in h.queues
      && trace[i].event.server !in RegisteredIn(trace[..i])
  }

  lemma AdmissiblePrefix<S>(h: HubState<S>, trace: seq<Arrival<S>>, n: nat)
    requires Admissible(h, trace) && n <= |trace|
    ensures Admissible(h, trace[..n])
  {
    forall i | 0 <= i < n && trace[..n][i].event.Register?
      ensures trace[..n][..i] == trace[..i]
    {
    }
  }

  /** The hub's state after it has handled every arrival in `trace`, oldest first. */
  function Run<S>(h: HubState<S>, trace: seq<Arrival<S>>): (h': HubState<S>)
    requires h.Valid() && Admissible(h, trace)
    ensures h'.Valid()
    ensures h'.queues.Keys == h.queues.Keys + RegisteredIn(trace)
    decreases |trace|
  {
    if trace == [] then h
    else
      var n := |trace| - 1;
      AdmissiblePrefix(h, trace, n);
      assert RegisteredIn(trace) == RegisteredIn(trace[..n]) + RegisteredIn([trace[n]]) by {
        RegisteredInSnoc(trace);
      }
      Step(Run(h, trace[..n]), trace[n])
  }

  lemma RegisteredInSnoc<S>(trace: seq<Arrival<S>>)
    requires trace != []
    ensures RegisteredIn(trace) == RegisteredIn(trace[..|trace| - 1]) + RegisteredIn([trace[|trace| - 1]])
  {
    var n := |trace| - 1;
    forall s | s in RegisteredIn(trace)
      ensures s in RegisteredIn(trace[..n]) + RegisteredIn([trace[n]])
    {
      var i :| 0 <= i < |trace| && trace[i].event.Register? && trace[i].event.server == s;
      if i < n {
        assert trace[..n][i] == trace[i];
      } else {
        assert [trace[n]][0] == trace[i];
      }
    }
    forall s | s in RegisteredIn(trace[..n])
      ensures s in RegisteredIn(trace)
    {
      var i :| 0 <= i < n && trace[..n][i].event.Register? && trace[..n][i].event.server == s;
      assert trace[i] == trace[..n][i];
    }
    forall s | s in RegisteredIn([trace[n]])
      ensures s in RegisteredIn(trace)
    {
      assert [trace[n]][0] == trace[n];
    }
  }

  /** An arrival that leaves `s` where it is: not its Unregister, and not a broadcast it missed. */
  ghost predicate Calm<S>(a: Arrival<S>, s: S) {
    a.event != Unregister(s) && (a.event.Broadcast? ==> s in a.ready)
  }

  /** Every arrival of `trace` from position `from` on is calm for `s`. */
  ghost predicate Quiet<S>(trace: seq<Arrival<S>>, s: S, from: nat) {
    forall j :: from <= j < |trace| ==> Calm(trace[j], s)
  }

  /**
    Membership after a trace, read off the trace alone: `s` was live at the
    start or was registered at some point, and after that point no
    Unregister of `s` came and `s` was ready at every broadcast.
   */
  ghost predicate LiveAfter<S>(h: HubState<S>, trace: seq<Arrival<S>>, s: S) {
    || (s in h.servers && Quiet(trace, s, 0))
    || exists i :: 0 <= i < |trace| && trace[i].event == Register(s) && Quiet(trace, s, i + 1)
  }

  /** How `LiveAfter` changes when one more arrival is appended. */
  lemma LiveAfterSnoc<S>(h: HubState<S>, trace: seq<Arrival<S>>, s: S)
    requires trace != []
    ensures var n := |trace| - 1;
      (LiveAfter(h, trace, s)
       <==> (trace[n].event == Register(s) || (Calm(trace[n], s) && LiveAfter(h, trace[..n], s))))
  {
    var n := |trace| - 1;
    var prefix := trace[..n];
    assert forall j :: 0 <= j < n ==> prefix[j] == trace[j];
    if LiveAfter(h, trace, s) && trace[n].event != Register(s) {
      if s in h.servers && Quiet(trace, s, 0) {
        assert Calm(trace[n], s);
        assert Quiet(prefix, s, 0);
      } else {
        var i :| 0 <= i < |trace| && trace[i].event == Register(s) && Quiet(trace, s, i + 1);
        assert i < n;
        assert Calm(trace[n], s);
        assert Quiet(prefix, s, i + 1);
        assert prefix[i].event == Register(s);
      }
    }
    if trace[n].event == Register(s) {
      assert Quiet(trace, s, n + 1);
    } else if Calm(trace[n], s) && LiveAfter(h, prefix, s) {
      if s in h.servers && Quiet(prefix, s, 0) {
        assert Quiet(trace, s, 0);
      } else {
        var i :| 0 <= i < |prefix| && prefix[i].event == Register(s) && Quiet(prefix, s, i + 1);
        assert trace[i].event == Register(s);
        assert Quiet(trace, s, i + 1);
      }
    }
  }

  /**
    Registry consistency: for every trace the hub handles, a server is live
    afterwards exactly when the trace says it should be.
   */
  lemma {:induction false} RegistryConsistency<S>(h: HubState<S>, trace: seq<Arrival<S>>, s: S)
    requires h.Valid() && Admissible(h, trace)
    ensures s in Run(h, trace).servers <==> LiveAfter(h, trace, s)
    decreases |trace|
  {
    if trace == [] {
      assert Quiet(trace, s, 0);
    } else {
      var n := |trace| - 1;
      AdmissiblePrefix(h, trace, n);
      RegistryConsistency(h, trace[..n], s);
      LiveAfterSnoc(h, trace, s);
      var before := Run(h, trace[..n]);
      assert Run(h, trace) == Step(before, trace[n]);
      match trace[n].event
      case Register(t) =>
        assert Run(h, trace).servers == before.servers + {t};
      case Unregister(t) =>
        assert Run(h, trace).servers == before.servers - {t};
      case Broadcast(frame) =>
        assert Run(h, trace).servers == before.servers * trace[n].ready;
    }
  }

  /**
    A channel that is closed stays exactly as it is for the rest of the run:
    it is never closed again and never handed another frame.
   */
  lemma {:induction false} ClosedQueueFrozen<S>(h: HubState<S>, trace: seq<Arrival<S>>, s: S)
    requires h.Valid() && Admissible(h, trace)
    requires s in h.queues && !h.queues[s].open
    ensures s in Run(h, trace).queues && Run(h, trace).queues[s] == h.queues[s]
    decreases |trace|
  {
    if trace != [] {
      var n := |trace| - 1;
      AdmissiblePrefix(h, trace, n);
      ClosedQueueFrozen(h, trace[..n], s);
    }
  }

  lemma RegisteredInAppend<S>(t1: seq<Arrival<S>>, t2: seq<Arrival<S>>)
    ensures RegisteredIn(t1 + t2) == RegisteredIn(t1) + RegisteredIn(t2)
  {
    var t := t1 + t2;
    forall s | s in RegisteredIn(t)
      ensures s in RegisteredIn(t1) + RegisteredIn(t2)
    {
      var i :| 0 <= i < |t| && t[i].event.Register? && t[i].event.server == s;
      if i < |t1| {
        assert t1[i] == t[i];
      } else {
        assert t2[i - |t1|] == t[i];
      }
    }
    forall s | s in RegisteredIn(t1)
      ensures s in RegisteredIn(t)
    {
      var i :| 0 <= i < |t1| && t1[i].event.Register? && t1[i].event.server == s;
      assert t[i] == t1[i];
    }
    forall s | s in RegisteredIn(t2)
      ensures s in RegisteredIn(t)
    {
      var i :| 0 <= i < |t2| && t2[i].event.Register? && t2[i].event.server == s;
      assert t[|t1| + i] == t2[i];
    }
  }

  /** An admissible trace splits into an admissible head and a tail admissible from where the head leaves the hub. */
  lemma AdmissibleSplit<S>(h: HubState<S>, t1: seq<Arrival<S>>, t2: seq<Arrival<S>>)
    requires h.Valid() && Admissible(h, t1 + t2)
    ensures Admissible(h, t1)
    ensures Admissible(Run(h, t1), t2)
  {
    var t := t1 + t2;
    assert t[..|t1|] == t1;
    AdmissiblePrefix(h, t, |t1|);
    forall i | 0 <= i < |t2| && t2[i].event.Register?
      ensures t2[i].event.server !in Run(h, t1).queues
      ensures t2[i].event.server !in RegisteredIn(t2[..i])
    {
      var k := |t1| + i;
      assert t[k] == t2[i];
      assert t[..k] == t1 + t2[..i];
      RegisteredInAppend(t1, t2[..i]);
    }
  }

  /** The last arrival of a trace is handled after all the others. */
  lemma RunSnoc<S>(h: HubState<S>, trace: seq<Arrival<S>>)
    requires h.Valid() && Admissible(h, trace) && trace != []
    ensures Admissible(h, trace[..|trace| - 1])
    ensures Run(h, trace) == Step(Run(h, trace[..|trace| - 1]), trace[|trace| - 1])
  {
    AdmissiblePrefix(h, trace, |trace| - 1);
  }

  /** Handling two traces one after the other is handling their concatenation. */
  lemma {:induction false} RunAppend<S>(h: HubState<S>, t1: seq<Arrival<S>>, t2: seq<Arrival<S>>)
    requires h.Valid() && Admissible(h, t1 + t2)
    ensures Admissible(h, t1) && Admissible(Run(h, t1), t2)
    ensures Run(h, t1 + t2) == Run(Run(h, t1), t2)
    decreases |t2|
  {
    AdmissibleSplit(h, t1, t2);
    if t2 == [] {
      assert t1 + t2 == t1;
    } else {
      var t := t1 + t2;
      var n := |t| - 1;
      var m := |t2| - 1;
      assert t[..n] == t1 + t2[..m];
      assert t[n] == t2[m];
      RunSnoc(h, t);
      RunSnoc(Run(h, t1), t2);
      RunAppend(h, t1, t2[..m]);
    }
  }

  /**
    A channel closed at any point of a run, say after the first n arrivals,
    is exactly as it was then at the end of the run. With `h` the initial
    hub this covers every channel the hub ever closes.
   */
  lemma ClosedQueueStaysFrozen<S>(h: HubState<S>, trace: seq<Arrival<S>>, n: nat, s: S)
    requires h.Valid() && Admissible(h, trace) && n <= |trace|
    ensures Admissible(h, trace[..n])
    ensures var mid := Run(h, trace[..n]);
      s in mid.queues && !mid.queues[s].open ==>
        s in Run(h, trace).queues && Run(h, trace).queues[s] == mid.queues[s]
  {
    assert trace[..n] + trace[n..] == trace;
    RunAppend(h, trace[..n], trace[n..]);
    var mid := Run(h, trace[..n]);
    if s in mid.queues && !mid.queues[s].open {
      ClosedQueueFrozen(mid, trace[n..], s);
    }
  }

  /** A second Unregister of the same server changes nothing: no double close. */
  lemma UnregisterIdempotent<S>(h: HubState<S>, s: S)
    requires h.Valid()
    ensures Unregistered(Unregistered(h, s), s) == Unregistered(h, s)
  {
  }

  /**
    One iteration of the range loop over the members: `s` is offered the
    frame, keeps its place if its writer accepted and is evicted otherwise.
   */
  function VisitOne<S>(h: HubState<S>, frame: Bytes, ready: set<S>, s: S): (h': HubState<S>)
    requires h.Valid() && s in h.servers
    ensures h'.Valid()
    ensures s in h'.servers <==> s in ready
    ensures h'.servers - {s} == h.servers - {s}
    ensures h'.queues.Keys == h.queues.Keys
    ensures h'.queues[s] == Visit(h.queues[s], frame, s in ready)
    ensures forall t :: t in h.queues && t != s ==> h'.queues[t] == h.queues[t]
  {
    HubState(
      if s in ready then h.servers else h.servers - {s},
      h.queues[s := Visit(h.queues[s], frame, s in ready)])
  }

  /** The hub visiting members one at a time, in the order `order` lists them. */
  function BroadcastInOrder<S>(h: HubState<S>, frame: Bytes, ready: set<S>, order: seq<S>): (h': HubState<S>)
    requires h.Valid()
    requires forall i :: 0 <= i < |order| ==> order[i] in h.servers
    requires forall i, j :: 0 <= i < j < |order| ==> order[i] != order[j]
    ensures h'.Valid()
    decreases |order|
  {
    if order == [] then h
    else
      assert forall i :: 0 <= i < |order[1..]| ==> order[1..][i] == order[i + 1];
      BroadcastInOrder(VisitOne(h, frame, ready, order[0]), frame, ready, order[1..])
  }

  /**
    Visiting the members in any order yields the same result, because what
    happens to each member depends only on whether it is ready.
   */
  lemma {:induction false} BroadcastOrderIrrelevant<S>(h: HubState<S>, frame: Bytes, ready: set<S>, order: seq<S>)
    requires h.Valid()
    requires forall i, j :: 0 <= i < j < |order| ==> order[i] != order[j]
    requires forall s :: s in order <==> s in h.servers
    ensures BroadcastInOrder(h, frame, ready, order) == Broadcasted(h, frame, ready)
  {
    PartialBroadcast(h, frame, ready, order);
    var visited := set s | s in order;
    assert visited == h.servers;
    assert h.servers - visited + visited * ready == h.servers * ready;
  }

  lemma {:induction false} PartialBroadcast<S>(h: HubState<S>, frame: Bytes, ready: set<S>, order: seq<S>)
    requires h.Valid()
    requires forall i :: 0 <= i < |order| ==> order[i] in h.servers
    requires forall i, j :: 0 <= i < j < |order| ==> order[i] != order[j]
    ensures var visited := set s | s in order;
      BroadcastInOrder(h, frame, ready, order)
        == HubState(h.servers - visited + visited * ready, Fanned(h.queues, visited, frame, ready))
    decreases |order|
  {
    var visited := set s | s in order;
    if order == [] {
      assert Fanned(h.queues, visited, frame, ready) == h.queues;
    } else {
      var s := order[0];
      var next := VisitOne(h, frame, ready, s);
      var rest := order[1..];
      assert forall i :: 0 <= i < |rest| ==> rest[i] == order[i + 1];
      assert forall i :: 0 <= i < |rest| ==> rest[i] != s;
      PartialBroadcast(next, frame, ready, rest);
      var later := set t | t in rest;
      assert visited == later + {s};
      assert s !in later;
      assert next.servers - later + later * ready == h.servers - visited + visited * ready;
      assert Fanned(next.queues, later, frame, ready) == Fanned(h.queues, visited, frame, ready);
    }
  }

  /**
    The hub itself: the live set and the channel states, changed one event
    at a time by the methods below.
   */
  class Hub<S(==)> {
    var servers: set<S>
    var queues: map<S, Queue>

    function State(): HubState<S>
      reads this
    {
      HubState(servers, queues)
    }

    ghost predicate Valid()
      reads this
    {
      State().Valid()
    }

    /** A hub with no servers, as built before its loop is started. */
    constructor ()
      ensures Valid() && State() == Initial()
    {
      servers := {};
      queues := map[];
    }

    /** The Register branch: `s`, which brings a fresh open channel, becomes a member. */
    method Register(s: S)
      requires Valid() && s !in queues
      modifies this
      ensures Valid()
      ensures State() == Registered(old(State()), s)
    {
      servers := servers + {s};
      queues := queues[s := EMPTY_QUEUE];
    }

    /** The Unregister branch: only a current member is removed and closed. */
    method Unregister(s: S)
      requires Valid()
      modifies this
      ensures Valid()
      ensures State() == Unregistered(old(State()), s)
    {
      if s in servers {
        servers := servers - {s};
        queues := queues[s := Close(queues[s])];
      }
    }

    /**
      The Broadcast branch: a non-blocking send to every member, in whatever
      order the map yields them; a member whose writer is not ready is closed
      and deleted on the spot.
     */
    method Broadcast(frame: Bytes, ready: set<S>)
      requires Valid()
      modifies this
      ensures Valid()
      ensures State() == Broadcasted(old(State()), frame, ready)
    {
      var pending := servers;
      while pending != {}
        invariant pending <= old(servers)
        invariant servers == pending + (old(servers) - pending) * ready
        invariant queues == Fanned(old(queues), old(servers) - pending, frame, ready)
        decreases pending
      {
        var s :| s in pending;
        if s in ready {
          queues := queues[s := Deliver(queues[s], frame)];
        } else {
          queues := queues[s := Close(queues[s])];
          servers := servers - {s};
        }
        pending := pending - {s};
      }
    }

    /** One turn of the select loop in Run. */
    method Handle(a: Arrival<S>)
      requires Valid() && Allowed(State(), a)
      modifies this
      ensures Valid()
      ensures State() == Step(old(State()), a)
    {
      match a.event
      case Register(s) => Register(s);
      case Unregister(s) => Unregister(s);
      case Broadcast(frame) => Broadcast(frame, a.ready);
    }
  }
}
