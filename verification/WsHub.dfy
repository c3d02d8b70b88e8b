/** The WebSocket hub of cmd/main-server/ws_hub.go.

    Hub and Client are the two structs with the three cases of the loop in Run as methods. The state machine
    below them interleaves that one loop with any number of handlers, posters and write pumps: the fan-out of
    one broadcast is a step for each client, in any order, with pumps running in between. A send on a closed
    channel and a second close are steps to `panicked`. */
module WsHub {
  import opened Common

  const SEND_CAPACITY := 16
  const BROADCAST_CAPACITY := 32

  datatype WSMessage = WSMessage(kind: string, payload: string)

  /** A client's send channel. */
  datatype Channel = Channel(buffer: seq<WSMessage>, open: bool)

  /** What a broadcast does to a client's open channel: queue the message, or close it when the buffer is full. */
  function Offer(ch: Channel, msg: WSMessage): Channel {
    if |ch.buffer| < SEND_CAPACITY then ch.(buffer := ch.buffer + [msg]) else ch.(open := false)
  }

  /** What a broadcast leaves of a client in the hub: it was offered the message, and stays if its buffer had room. */
  ghost predicate Offered(before: Channel, after: Channel, stays: bool, msg: WSMessage) {
    after == Offer(before, msg) && (stays <==> |before.buffer| < SEND_CAPACITY)
  }

  // ----- The structs -----

  class Client {
    var send: Channel

    constructor ()
      ensures send == Channel([], true)
    {
      send := Channel([], true);
    }

    /** client.send <- msg in a select with a default: false when the buffer is full. */
    method TrySend(msg: WSMessage) returns (sent: bool)
      requires send.open
      modifies this
      ensures sent <==> |old(send).buffer| < SEND_CAPACITY
      ensures send == if sent then old(send).(buffer := old(send).buffer + [msg]) else old(send)
    {
      sent := |send.buffer| < SEND_CAPACITY;
      if sent {
        send := send.(buffer := send.buffer + [msg]);
      }
    }

    method Close()
      requires send.open
      modifies this
      ensures send == old(send).(open := false)
    {
      send := send.(open := false);
    }
  }

  class Hub {
    var clients: set<Client>

    /** Every client in the map has an open channel. */
    ghost predicate Valid()
      reads this, clients
    {
      forall c :: c in clients ==> c.send.open
    }

    constructor ()
      ensures Valid() && clients == {}
    {
      clients := {};
    }

    method Register(client: Client)
      requires Valid() && client.send.open
      modifies this
      ensures Valid() && clients == old(clients) + {client}
    {
      clients := clients + {client};
    }

    /** A client that was evicted before is left alone, so its channel is not closed twice. */
    method Unregister(client: Client)
      requires Valid()
      modifies this, client
      ensures Valid() && clients == old(clients) - {client}
      ensures client.send == if client in old(clients) then old(client.send).(open := false) else old(client.send)
    {
      if client in clients {
        clients := clients - {client};
        client.Close();
      }
    }

    /** Whatever the order in which the map is ranged over, every client is offered the message once and
        exactly those whose buffer was full are closed and dropped. */
    method Broadcast(msg: WSMessage)
      requires Valid()
      modifies this, clients
      ensures Valid() && clients <= old(clients)
      ensures forall c :: c in old(clients) ==> Offered(old(c.send), c.send, c in clients, msg)
    {
      var todo := clients;
      while todo != {}
        invariant todo <= clients <= old(clients) && Valid()
        invariant forall c :: c in todo ==> c.send == old(c.send)
        invariant forall c :: c in old(clients) - todo ==> Offered(old(c.send), c.send, c in clients, msg)
        decreases todo
      {
        var client :| client in todo;
        var sent := client.TrySend(msg);
        if !sent {
          client.Close();
          clients := clients - {client};
        }
        todo := todo - {client};
      }
    }
  }

  // ----- The protocol -----

  /** A connection: its place in the hub and its pump, and as history what the pump took and between which
      processed broadcasts the hub held it. */
  datatype Conn = Conn(send: Channel, registered: bool, inHub: bool, pumping: bool, closes: nat,
                       taken: seq<WSMessage>, from: int, until: Option<int>)

  datatype Loop = Select | Fanning(msg: WSMessage, todo: set<nat>)

  /** `posted` and `processed` are the messages put into h.broadcast and received from it so far. */
  datatype State = State(conns: map<nat, Conn>, broadcast: seq<WSMessage>, loop: Loop,
                         posted: seq<WSMessage>, processed: seq<WSMessage>, panicked: bool)

  datatype Step =
    | Accept(c: nat)          // AddClient creates the client and waits in h.register <- client
    | Register(c: nat)
    | Unregister(c: nat)      // any number of times, once AddClient has returned
    | Post(msg: WSMessage)
    | Receive
    | Deliver(c: nat)
    | FanDone
    | Pump(c: nat)
    | PumpStops(c: nat)       // write error, or the channel is closed and drained

  function Init(): State {
    State(map[], [], Select, [], [], false)
  }

  predicate Enabled(s: State, step: Step) {
    !s.panicked &&
    match step
    case Accept(c) => c !in s.conns
    case Register(c) => s.loop.Select? && c in s.conns && !s.conns[c].registered
    case Unregister(c) => s.loop.Select? && c in s.conns && s.conns[c].registered
    case Post(_) => |s.broadcast| < BROADCAST_CAPACITY
    case Receive => s.loop.Select? && s.broadcast != []
    case Deliver(c) => s.loop.Fanning? && c in s.loop.todo && c in s.conns
    case FanDone => s.loop.Fanning? && s.loop.todo == {}
    case Pump(c) => c in s.conns && s.conns[c].pumping && s.conns[c].send.buffer != []
    case PumpStops(c) => c in s.conns && s.conns[c].pumping
  }

  function HubClients(s: State): set<nat> {
    set c | c in s.conns && s.conns[c].inHub
  }

  /** close(client.send) and delete(h.clients, client), the hub having processed n broadcasts before. */
  function Drop(conn: Conn, n: int): Conn {
    conn.(send := conn.send.(open := false), closes := conn.closes + 1, inHub := false, until := Some(n))
  }

  function Apply(s: State, step: Step): State
    requires Enabled(s, step)
  {
    match step
    case Accept(c) =>
      s.(conns := s.conns[c := Conn(Channel([], true), false, false, false, 0, [], 0, None)])
    case Register(c) =>
      s.(conns := s.conns[c := s.conns[c].(registered := true, inHub := true, pumping := true, from := |s.processed|)])
    case Unregister(c) =>
      if !s.conns[c].inHub then s
      else if !s.conns[c].send.open then s.(panicked := true)
      else s.(conns := s.conns[c := Drop(s.conns[c], |s.processed|)])
    case Post(msg) =>
      s.(broadcast := s.broadcast + [msg], posted := s.posted + [msg])
    case Receive =>
      s.(broadcast := s.broadcast[1..], processed := s.processed + [s.broadcast[0]],
         loop := Fanning(s.broadcast[0], HubClients(s)))
    case Deliver(c) =>
      var conn, t := s.conns[c], s.(loop := s.loop.(todo := s.loop.todo - {c}));
      if !conn.send.open then s.(panicked := true)
      else if |conn.send.buffer| < SEND_CAPACITY
      then t.(conns := s.conns[c := conn.(send := Offer(conn.send, s.loop.msg))])
      else t.(conns := s.conns[c := Drop(conn, |s.processed| - 1)])
    case FanDone =>
      s.(loop := Select)
    case Pump(c) =>
      var conn := s.conns[c];
      s.(conns := s.conns[c := conn.(send := conn.send.(buffer := conn.send.buffer[1..]),
                                     taken := conn.taken + [conn.send.buffer[0]])])
    case PumpStops(c) =>
      s.(conns := s.conns[c := s.conns[c].(pumping := false)])
  }

  ghost predicate IsRun(run: seq<State>) {
    && run != [] && run[0] == Init()
    && forall i :: 0 < i < |run| ==> Follows(run[i - 1], run[i])
  }

  ghost predicate Follows(s: State, t: State) {
    exists step :: Enabled(s, step) && t == Apply(s, step)
  }

  // ----- What every run keeps -----

  /** How many of the processed broadcasts concern client c: all up to its removal, or up to now, where the one
      being fanned out counts once c has been visited. */
  function Reached(s: State, c: nat): int
    requires c in s.conns
  {
    if s.conns[c].until.Some? then s.conns[c].until.value
    else if s.loop.Fanning? && c in s.loop.todo then |s.processed| - 1
    else |s.processed|
  }

  /** What the pump took, then what is buffered, is the slice of the processed broadcasts from registration
      to removal. */
  ghost predicate Delivered(s: State, c: nat)
    requires c in s.conns
  {
    var conn := s.conns[c];
    && 0 <= conn.from <= Reached(s, c) <= |s.processed|
    && conn.taken + conn.send.buffer == s.processed[conn.from..Reached(s, c)]
  }

  /** In the clients map exactly while registered with an open channel, and closed once at most. */
  ghost predicate ChannelSafe(conn: Conn) {
    && (conn.inHub <==> conn.registered && conn.send.open)
    && (conn.send.open <==> conn.until.None?)
    && conn.closes == (if conn.send.open then 0 else 1)
    && |conn.send.buffer| <= SEND_CAPACITY
    && (!conn.registered ==> conn.send == Channel([], true) && conn.taken == [] && !conn.pumping)
  }

  ghost predicate Inv(s: State) {
    && !s.panicked
    && s.posted == s.processed + s.broadcast
    && |s.broadcast| <= BROADCAST_CAPACITY
    && (s.loop.Fanning? ==> |s.processed| > 0 && s.loop.msg == s.processed[|s.processed| - 1]
                            && s.loop.todo <= HubClients(s))
    && (forall c :: c in s.conns ==> ChannelSafe(s.conns[c]))
    && (forall c :: c in s.conns && s.conns[c].registered ==> Delivered(s, c))
  }

  /** t differs from s in connection c, and at most by c being visited. */
  ghost predicate OnlyConnChanges(s: State, t: State, c: nat) {
    && c in t.conns && t.conns == s.conns[c := t.conns[c]]
    && t.processed == s.processed && t.broadcast == s.broadcast && t.posted == s.posted && !t.panicked
    && (t.loop == s.loop || (s.loop.Fanning? && t.loop == s.loop.(todo := s.loop.todo - {c})))
  }

  lemma ConnChangeKeepsInv(s: State, t: State, c: nat)
    requires Inv(s) && OnlyConnChanges(s, t, c)
    requires ChannelSafe(t.conns[c]) && (t.conns[c].registered ==> Delivered(t, c))
    requires t.loop.Fanning? && c in t.loop.todo ==> t.conns[c].inHub
    ensures Inv(t)
  {
    forall d | d in t.conns && t.conns[d].registered ensures Delivered(t, d) {
      if d != c {
        assert t.conns[d] == s.conns[d] && Delivered(s, d);
      }
    }
    assert forall d :: d in t.conns && d != c ==> t.conns[d] == s.conns[d];
    assert t.loop.Fanning? ==> forall d :: d in t.loop.todo ==> d in HubClients(s);
  }

  lemma StepKeepsInv(s: State, step: Step)
    requires Inv(s) && Enabled(s, step)
    ensures Inv(Apply(s, step))
  {
    var t := Apply(s, step);
    match step
    case Accept(c) => ConnChangeKeepsInv(s, t, c);
    case Register(c) => RegisterKeepsInv(s, c);
    case Unregister(c) => UnregisterKeepsInv(s, c);
    case Post(msg) =>
      forall d | d in t.conns && t.conns[d].registered ensures Delivered(t, d) {
        assert Delivered(s, d);
      }
    case Receive => ReceiveKeepsInv(s);
    case Deliver(c) =>
      DeliverKeepsConn(s, c);
      ConnChangeKeepsInv(s, t, c);
    case FanDone =>
      forall d | d in t.conns && t.conns[d].registered ensures Delivered(t, d) {
        assert Delivered(s, d);
      }
    case Pump(c) => PumpKeepsInv(s, c);
    case PumpStops(c) =>
      assert ChannelSafe(s.conns[c]) && Delivered(s, c);
      assert Reached(t, c) == Reached(s, c);
      ConnChangeKeepsInv(s, t, c);
  }

  lemma RegisterKeepsInv(s: State, c: nat)
    requires Inv(s) && Enabled(s, Register(c))
    ensures Inv(Apply(s, Register(c)))
  {
    assert ChannelSafe(s.conns[c]);
    assert s.processed[|s.processed|..|s.processed|] == [];
    ConnChangeKeepsInv(s, Apply(s, Register(c)), c);
  }

  lemma UnregisterKeepsInv(s: State, c: nat)
    requires Inv(s) && Enabled(s, Unregister(c))
    ensures Inv(Apply(s, Unregister(c)))
  {
    assert ChannelSafe(s.conns[c]) && Delivered(s, c);
    if s.conns[c].inHub {
      ConnChangeKeepsInv(s, Apply(s, Unregister(c)), c);
    }
  }

  lemma PumpKeepsInv(s: State, c: nat)
    requires Inv(s) && Enabled(s, Pump(c))
    ensures Inv(Apply(s, Pump(c)))
  {
    var conn, t := s.conns[c], Apply(s, Pump(c));
    assert ChannelSafe(conn) && Delivered(s, c);
    assert conn.taken + [conn.send.buffer[0]] + conn.send.buffer[1..] == conn.taken + conn.send.buffer;
    assert Reached(t, c) == Reached(s, c);
    ConnChangeKeepsInv(s, t, c);
  }

  lemma ReceiveKeepsInv(s: State)
    requires Inv(s) && Enabled(s, Receive)
    ensures Inv(Apply(s, Receive))
  {
    var t := Apply(s, Receive);
    assert s.broadcast == [s.broadcast[0]] + s.broadcast[1..];
    forall d | d in t.conns && t.conns[d].registered ensures Delivered(t, d) {
      assert Delivered(s, d);
      var from, upto := s.conns[d].from, Reached(s, d);
      assert Reached(t, d) == upto;
      assert t.processed[from..upto] == s.processed[from..upto];
    }
  }

  lemma DeliverKeepsConn(s: State, c: nat)
    requires Inv(s) && Enabled(s, Deliver(c))
    ensures var t := Apply(s, Deliver(c));
            !t.panicked && ChannelSafe(t.conns[c]) && Delivered(t, c)
  {
    var conn, n := s.conns[c], |s.processed|;
    assert c in HubClients(s) && Delivered(s, c);
    assert s.processed[conn.from..n] == s.processed[conn.from..n - 1] + [s.loop.msg];
  }

  lemma {:induction false} RunKeepsInv(run: seq<State>, i: nat)
    requires IsRun(run) && i < |run|
    ensures Inv(run[i])
  {
    if i > 0 {
      RunKeepsInv(run, i - 1);
      assert Follows(run[i - 1], run[i]);
      var step :| Enabled(run[i - 1], step) && run[i] == Apply(run[i - 1], step);
      StepKeepsInv(run[i - 1], step);
    }
  }

  // ----- One broadcast without interleaving -----

  /** The visits still to do are these, in this order. */
  ghost predicate Visits(s: State, order: seq<nat>) {
    s.loop.Fanning? && NoDuplicates(order) && forall c :: c in s.loop.todo <==> c in order
  }

  /** The rest of a fan-out with nothing in between. */
  ghost function FanOut(s: State, order: seq<nat>): State
    requires Inv(s) && Visits(s, order)
    decreases |order|
  {
    if order == [] then (NothingToVisit(s); Apply(s, FanDone))
    else (VisitNext(s, order); FanOut(Apply(s, Deliver(order[0])), order[1..]))
  }

  lemma NothingToVisit(s: State)
    requires Inv(s) && Visits(s, [])
    ensures Enabled(s, FanDone)
  {
    assert s.loop.todo == {};
  }

  lemma VisitNext(s: State, order: seq<nat>)
    requires Inv(s) && Visits(s, order) && order != []
    ensures Enabled(s, Deliver(order[0]))
    ensures var t := Apply(s, Deliver(order[0]));
            Inv(t) && Visits(t, order[1..]) && t.loop.msg == s.loop.msg
  {
    var c := order[0];
    assert c in s.loop.todo && c in HubClients(s);
    StepKeepsInv(s, Deliver(c));
    DeliverKeepsConn(s, c);
    forall d ensures d in s.loop.todo - {c} <==> d in order[1..] {
      if d in order[1..] {
        var i :| 0 <= i < |order| - 1 && order[1..][i] == d;
        assert order[i + 1] == d;
      }
      if d in s.loop.todo && d != c {
        assert d in order;
      }
    }
  }

  /** The hub's struct and its steps agree: receiving a broadcast and visiting the clients in any order, with no pump in
      between, leaves every client exactly as Hub.Broadcast does, and nobody else is touched. */
  lemma StepsBroadcast(s: State, order: seq<nat>)
    requires Inv(s) && Enabled(s, Receive)
    requires NoDuplicates(order) && forall c :: c in HubClients(s) <==> c in order
    ensures var received := Apply(s, Receive);
            && Inv(received) && Visits(received, order)
            && var t, msg := FanOut(received, order), s.broadcast[0];
               && t.loop.Select? && t.conns.Keys == s.conns.Keys
               && (forall c :: c in HubClients(s) ==>
                     Offered(s.conns[c].send, t.conns[c].send, t.conns[c].inHub, msg))
               && (forall c :: c in s.conns && c !in HubClients(s) ==> t.conns[c] == s.conns[c])
  {
    hide Inv, Offered, FanOut;
    StepKeepsInv(s, Receive);
    FanOutBroadcasts(Apply(s, Receive), order);
  }

  lemma {:induction false} FanOutBroadcasts(s: State, order: seq<nat>)
    requires Inv(s) && Visits(s, order)
    ensures var t := FanOut(s, order);
            && t.loop.Select? && t.conns.Keys == s.conns.Keys
            && (forall c :: c in order ==>
                  Offered(s.conns[c].send, t.conns[c].send, t.conns[c].inHub, s.loop.msg))
            && (forall c :: c in s.conns && c !in order ==> t.conns[c] == s.conns[c])
    decreases |order|
  {
    hide Apply, Inv, Enabled, Visits, Offered;
    if order == [] {
      NothingToVisit(s);
      Done(s);
    } else {
      VisitNext(s, order);
      var c := order[0];
      var next := Apply(s, Deliver(c));
      FanOutBroadcasts(next, order[1..]);
      OneOffered(s, order);
      assert order == [c] + order[1..];
      var t := FanOut(s, order);
      forall d | d in order ensures Offered(s.conns[d].send, t.conns[d].send, t.conns[d].inHub, s.loop.msg) {
        if d != c {
          assert d in order[1..] && next.conns[d] == s.conns[d];
        }
      }
    }
  }

  lemma Done(s: State)
    requires Enabled(s, FanDone)
    ensures Apply(s, FanDone).loop.Select? && Apply(s, FanDone).conns == s.conns
  {
  }

  lemma OneOffered(s: State, order: seq<nat>)
    requires Inv(s) && Visits(s, order) && order != [] && Enabled(s, Deliver(order[0]))
    ensures var c, t := order[0], Apply(s, Deliver(order[0]));
            && c in s.conns && c !in order[1..] && t.conns.Keys == s.conns.Keys
            && Offered(s.conns[c].send, t.conns[c].send, t.conns[c].inHub, s.loop.msg)
            && (forall d :: d in order ==> d in s.conns)
            && forall d :: d in s.conns && d != c ==> t.conns[d] == s.conns[d]
  {
    var c := order[0];
    assert c in s.loop.todo && c in HubClients(s) && ChannelSafe(s.conns[c]);
    forall i | 0 <= i < |order| - 1 ensures order[1..][i] != c {
      assert order[0] != order[i + 1];
    }
    forall d | d in order ensures d in s.conns {
      assert d in s.loop.todo && d in HubClients(s);
    }
  }

  /** Delivery, on every run and whatever the interleaving: each client has received or has buffered exactly the
      posted messages of one interval, in order and without a gap; no channel operation ever panics. */
  lemma HubDelivers(run: seq<State>, i: nat, c: nat)
    requires IsRun(run) && i < |run| && c in run[i].conns && run[i].conns[c].registered
    ensures var s, conn := run[i], run[i].conns[c];
            && !s.panicked
            && 0 <= conn.from <= Reached(s, c) <= |s.posted|
            && conn.taken + conn.send.buffer == s.posted[conn.from..Reached(s, c)]
            && |conn.send.buffer| <= 16
            && (conn.inHub <==> conn.send.open) && conn.closes <= 1
  {
    RunKeepsInv(run, i);
    var s, conn := run[i], run[i].conns[c];
    assert ChannelSafe(conn) && Delivered(s, c);
    assert s.posted[conn.from..Reached(s, c)] == s.processed[conn.from..Reached(s, c)];
  }

  /** A broadcast evicts a client only when the sixteen broadcasts before it all wait in its buffer, and a
      client once out of the hub stays out, keeping the interval it was owed. */
  lemma Eviction(run: seq<State>, i: nat, c: nat)
    requires IsRun(run) && i + 1 < |run| && c in run[i].conns && run[i].conns[c].registered
    ensures c in run[i + 1].conns && run[i + 1].conns[c].registered
    ensures var conn, next := run[i].conns[c], run[i + 1].conns[c];
            && (!conn.inHub ==> !next.inHub && next.until == conn.until && next.closes == conn.closes)
            && (conn.inHub && !next.inHub && run[i].loop.Fanning? ==>
                  var k := |run[i].processed| - 1;
                  && k >= 16 && next.until == Some(k)
                  && next.send.buffer == run[i].processed[k - 16..k])
  {
    hide Apply, Inv, Enabled;
    RunKeepsInv(run, i);
    assert Follows(run[i], run[i + 1]);
    var step :| Enabled(run[i], step) && run[i + 1] == Apply(run[i], step);
    StepEvicts(run[i], step, c);
  }

  lemma StepEvicts(s: State, step: Step, c: nat)
    requires Inv(s) && Enabled(s, step) && c in s.conns && s.conns[c].registered
    ensures var t, conn := Apply(s, step), s.conns[c];
            && c in t.conns && t.conns[c].registered
            && (!conn.inHub ==> !t.conns[c].inHub && t.conns[c].until == conn.until && t.conns[c].closes == conn.closes)
            && (conn.inHub && !t.conns[c].inHub && s.loop.Fanning? ==>
                  var k := |s.processed| - 1;
                  && k >= SEND_CAPACITY && t.conns[c].until == Some(k)
                  && t.conns[c].send.buffer == s.processed[k - SEND_CAPACITY..k])
  {
    var conn := s.conns[c];
    assert ChannelSafe(conn) && Delivered(s, c);
    if step == Deliver(c) && |conn.send.buffer| == SEND_CAPACITY {
      var k := |s.processed| - 1;
      var got := conn.taken + conn.send.buffer;
      assert Reached(s, c) == k && |got| == k - conn.from;
      assert conn.send.buffer == got[|conn.taken|..];
      assert s.processed[conn.from..k][|conn.taken|..] == s.processed[k - SEND_CAPACITY..k];
    }
  }

  // ----- Registering and unregistering -----

  /** The step agrees with Hub.Register: the client is in the hub, its pump runs, and what it will get begins with
      the next broadcast that the hub receives. */
  lemma StepRegisters(s: State, c: nat)
    requires Inv(s) && Enabled(s, Register(c))
    ensures var t := Apply(s, Register(c));
            && HubClients(t) == HubClients(s) + {c} && t == s.(conns := s.conns[c := t.conns[c]])
            && t.conns[c].send == s.conns[c].send == Channel([], true)
            && t.conns[c].registered && t.conns[c].pumping
            && t.conns[c].taken == [] && t.conns[c].from == |s.processed|
  {
    assert ChannelSafe(s.conns[c]);
  }

  /** The step agrees with Hub.Unregister: a client of the hub leaves it and its channel is closed, any other client is
      left alone, and so are all other connections. */
  lemma StepUnregisters(s: State, c: nat)
    requires Inv(s) && Enabled(s, Unregister(c))
    ensures var t := Apply(s, Unregister(c));
            && HubClients(t) == HubClients(s) - {c} && t == s.(conns := s.conns[c := t.conns[c]])
            && t.conns[c].send == (if c in HubClients(s) then s.conns[c].send.(open := false) else s.conns[c].send)
            && !t.conns[c].send.open && t.conns[c].taken == s.conns[c].taken
            && t.conns[c].until == if c in HubClients(s) then Some(|s.processed|) else s.conns[c].until
  {
    assert ChannelSafe(s.conns[c]);
    if !s.conns[c].inHub {
      assert s.conns == s.conns[c := s.conns[c]];
    }
  }

  // ----- Runs with their steps -----

  ghost predicate IsTrace(run: seq<State>, steps: seq<Step>) {
    && |run| == |steps| + 1 && run[0] == Init()
    && forall i :: 0 <= i < |steps| ==> Enabled(run[i], steps[i]) && run[i + 1] == Apply(run[i], steps[i])
  }

  lemma TraceInv(run: seq<State>, steps: seq<Step>, i: nat)
    requires IsTrace(run, steps) && i < |run|
    ensures IsRun(run) && Inv(run[i])
  {
    hide Inv, Apply, Enabled;
    forall j | 0 < j < |run| ensures Follows(run[j - 1], run[j]) {
      assert Enabled(run[j - 1], steps[j - 1]) && run[j - 1 + 1] == Apply(run[j - 1], steps[j - 1]);
    }
    RunKeepsInv(run, i);
  }

  /** Everything that was or will be put into the client's socket so far. */
  function Got(conn: Conn): seq<WSMessage> {
    conn.taken + conn.send.buffer
  }

  /** What no step changes of a connection, once it is registered, has left the hub, or its pump has stopped. */
  lemma StepKeepsHistory(s: State, step: Step, c: nat)
    requires Inv(s) && Enabled(s, step) && c in s.conns && s.conns[c].registered
    ensures var t := Apply(s, step);
            && c in t.conns && t.conns[c].registered && t.conns[c].from == s.conns[c].from
            && (!s.conns[c].inHub ==>
                  !t.conns[c].inHub && t.conns[c].until == s.conns[c].until && Got(t.conns[c]) == Got(s.conns[c]))
            && (!s.conns[c].pumping ==> !t.conns[c].pumping)
  {
    assert ChannelSafe(s.conns[c]);
    if step == Pump(c) {
      var conn := s.conns[c];
      assert conn.taken + [conn.send.buffer[0]] + conn.send.buffer[1..] == conn.taken + conn.send.buffer;
    }
  }

  /** From its registration on, a client's interval begins where the hub was then. */
  lemma {:induction false} RegisteredFrom(run: seq<State>, steps: seq<Step>, i: nat, j: nat, c: nat)
    requires IsTrace(run, steps) && i < j < |run| && steps[i] == Register(c)
    ensures c in run[j].conns && run[j].conns[c].registered && run[j].conns[c].from == |run[i].processed|
    decreases j
  {
    hide Inv, Apply;
    TraceInv(run, steps, j - 1);
    if i + 1 < j {
      RegisteredFrom(run, steps, i, j - 1, c);
      assert Enabled(run[j - 1], steps[j - 1]) && run[j - 1 + 1] == Apply(run[j - 1], steps[j - 1]);
      StepKeepsHistory(run[j - 1], steps[j - 1], c);
    } else {
      assert Enabled(run[i], steps[i]) && run[i + 1] == Apply(run[i], steps[i]);
      StepRegisters(run[i], c);
    }
  }

  /** From its removal on, a client is out of the hub with a closed channel, and nothing is added to what it got. */
  lemma {:induction false} UnregisteredUntil(run: seq<State>, steps: seq<Step>, k: nat, j: nat, c: nat)
    requires IsTrace(run, steps) && k < j < |run| && steps[k] == Unregister(c)
    ensures c in run[k].conns && c in run[j].conns && run[j].conns[c].registered
    ensures c !in HubClients(run[j]) && !run[j].conns[c].send.open && Got(run[j].conns[c]) == Got(run[k].conns[c])
    ensures c in HubClients(run[k]) ==> run[j].conns[c].until == Some(|run[k].processed|)
    decreases j
  {
    hide Apply, Inv;
    TraceInv(run, steps, j - 1);
    TraceInv(run, steps, j);
    OpenInHub(run[j], c);
    if k + 1 < j {
      UnregisteredUntil(run, steps, k, j - 1, c);
      assert Enabled(run[j - 1], steps[j - 1]) && run[j - 1 + 1] == Apply(run[j - 1], steps[j - 1]);
      StepKeepsHistory(run[j - 1], steps[j - 1], c);
    } else {
      assert Enabled(run[k], steps[k]) && run[k + 1] == Apply(run[k], steps[k]);
      StepUnregisters(run[k], c);
      StepKeepsHistory(run[k], steps[k], c);
    }
  }

  lemma OpenInHub(s: State, c: nat)
    requires Inv(s)
    ensures c in s.conns && s.conns[c].registered ==> (s.conns[c].inHub <==> s.conns[c].send.open)
  {
    if c in s.conns {
      assert ChannelSafe(s.conns[c]);
    }
  }

  /** A client that is unregistered while in the hub got, and gets for good, exactly the messages that the hub received
      between its registration and its removal; none that the hub received later is among them. */
  lemma ClientGets(run: seq<State>, steps: seq<Step>, i: nat, k: nat, j: nat, c: nat)
    requires IsTrace(run, steps) && i < k < j < |run| && steps[i] == Register(c) && steps[k] == Unregister(c)
    requires c in HubClients(run[k])
    ensures c in run[j].conns
    ensures |run[i].processed| <= |run[k].processed| <= |run[j].processed|
    ensures Got(run[j].conns[c]) == run[j].processed[|run[i].processed|..|run[k].processed|]
  {
    hide Apply, Inv, Enabled;
    RegisteredFrom(run, steps, i, j, c);
    UnregisteredUntil(run, steps, k, j, c);
    TraceInv(run, steps, j);
    IntervalOf(run[j], c);
  }

  lemma IntervalOf(s: State, c: nat)
    requires Inv(s) && c in s.conns && s.conns[c].registered
    ensures 0 <= s.conns[c].from <= Reached(s, c) <= |s.processed|
    ensures Got(s.conns[c]) == s.processed[s.conns[c].from..Reached(s, c)]
  {
    assert Delivered(s, c);
  }

  /** A client still in the hub, when no broadcast is being fanned out, got everything that the hub has received since
      its registration. */
  lemma MemberGets(run: seq<State>, steps: seq<Step>, i: nat, j: nat, c: nat)
    requires IsTrace(run, steps) && i < j < |run| && steps[i] == Register(c)
    requires c in HubClients(run[j]) && run[j].loop.Select?
    ensures |run[i].processed| <= |run[j].processed|
    ensures Got(run[j].conns[c]) == run[j].processed[|run[i].processed|..]
  {
    hide Apply, Enabled;
    RegisteredFrom(run, steps, i, j, c);
    TraceInv(run, steps, j);
    assert ChannelSafe(run[j].conns[c]);
    IntervalOf(run[j], c);
  }

  /** The messages posted are those of the posters, in the order of their sends. */
  function PostsOf(steps: seq<Step>): seq<WSMessage> {
    if steps == [] then []
    else PostsOf(steps[..|steps| - 1]) + if steps[|steps| - 1].Post? then [steps[|steps| - 1].msg] else []
  }

  lemma {:induction false} PostedExact(run: seq<State>, steps: seq<Step>, j: nat)
    requires IsTrace(run, steps) && j < |run|
    ensures run[j].posted == PostsOf(steps[..j]) == run[j].processed + run[j].broadcast
    decreases j
  {
    TraceInv(run, steps, j);
    if j > 0 {
      PostedExact(run, steps, j - 1);
      assert steps[..j][..j - 1] == steps[..j - 1];
      assert Enabled(run[j - 1], steps[j - 1]) && run[j - 1 + 1] == Apply(run[j - 1], steps[j - 1]);
    }
  }

  // ----- What can happen -----

  /** Posting waits exactly while thirty-two messages wait; outside a fan-out the hub takes every accepted client and every
      removal, and a message when there is one; during a fan-out it takes none of them. */
  lemma HubServes(s: State)
    requires Inv(s)
    ensures forall m :: Enabled(s, Post(m)) <==> |s.broadcast| < 32
    ensures s.loop.Select? ==> (Enabled(s, Receive) <==> s.broadcast != [])
    ensures forall c :: c in s.conns ==>
              && (Enabled(s, Register(c)) <==> s.loop.Select? && !s.conns[c].registered)
              && (Enabled(s, Unregister(c)) <==> s.loop.Select? && s.conns[c].registered)
              && (Enabled(s, PumpStops(c)) <==> s.conns[c].pumping)
              && (Enabled(s, PumpStops(c)) ==> !Apply(s, PumpStops(c)).conns[c].pumping)
    ensures forall c :: c !in s.conns ==>
              && Enabled(s, Accept(c))
              && c in Apply(s, Accept(c)).conns && !Apply(s, Accept(c)).conns[c].registered
    ensures s.loop.Fanning? ==> !Enabled(s, Receive) && forall c :: c in s.loop.todo ==> Enabled(s, Deliver(c))
  {
    if s.loop.Fanning? {
      forall c | c in s.loop.todo ensures c in s.conns {
        assert c in HubClients(s);
      }
    }
  }

  ghost predicate Runs(s: State, steps: seq<Step>)
    decreases |steps|
  {
    steps == [] || (Enabled(s, steps[0]) && Runs(Apply(s, steps[0]), steps[1..]))
  }

  ghost function After(s: State, steps: seq<Step>): State
    requires Runs(s, steps)
    decreases |steps|
  {
    if steps == [] then s else After(Apply(s, steps[0]), steps[1..])
  }

  predicate IsHubStep(step: Step) {
    step.Receive? || step.Deliver? || step.FanDone?
  }

  /** From any state the hub alone can bring out everything that is posted: it never waits for a client. */
  lemma {:induction false} HubDrains(s: State) returns (steps: seq<Step>)
    requires Inv(s)
    ensures Runs(s, steps) && forall step :: step in steps ==> IsHubStep(step)
    ensures var t := After(s, steps);
            Inv(t) && t.loop.Select? && t.broadcast == [] && t.processed == s.posted == t.posted
    decreases |s.broadcast|, if s.loop.Fanning? then |s.loop.todo| + 1 else 0
  {
    if s.loop.Select? && s.broadcast == [] {
      steps := [];
    } else {
      var step := NextHubStep(s);
      StepKeepsInv(s, step);
      var t := Apply(s, step);
      hide Inv, Apply, Enabled;
      var rest := HubDrains(t);
      steps := [step] + rest;
      assert steps[1..] == rest;
    }
  }

  lemma NextHubStep(s: State) returns (step: Step)
    requires Inv(s) && !(s.loop.Select? && s.broadcast == [])
    ensures IsHubStep(step) && Enabled(s, step)
    ensures var t := Apply(s, step);
            && t.posted == s.posted && |t.broadcast| <= |s.broadcast|
            && (|t.broadcast| == |s.broadcast| ==>
                  s.loop.Fanning? && (t.loop.Fanning? ==> |t.loop.todo| < |s.loop.todo|))
  {
    if s.loop.Select? {
      step := Receive;
    } else if s.loop.todo == {} {
      step := FanDone;
    } else {
      var c :| c in s.loop.todo;
      assert c in HubClients(s) && ChannelSafe(s.conns[c]);
      step := Deliver(c);
    }
  }

  /** And a running pump alone can take everything that is buffered, in order. */
  lemma {:induction false} PumpDrains(s: State, c: nat) returns (steps: seq<Step>)
    requires Inv(s) && c in s.conns && s.conns[c].pumping
    ensures Runs(s, steps) && forall step :: step in steps ==> step == Pump(c)
    ensures var t := After(s, steps);
            c in t.conns && t.conns[c].send.buffer == [] && t.conns[c].taken == Got(s.conns[c])
    decreases |s.conns[c].send.buffer|
  {
    if s.conns[c].send.buffer == [] {
      steps := [];
      assert s.conns[c].taken + [] == s.conns[c].taken;
    } else {
      StepKeepsInv(s, Pump(c));
      var conn, t := s.conns[c], Apply(s, Pump(c));
      assert conn.taken + [conn.send.buffer[0]] + conn.send.buffer[1..] == conn.taken + conn.send.buffer;
      hide Inv;
      var rest := PumpDrains(t, c);
      steps := [Pump(c)] + rest;
      assert steps[1..] == rest;
    }
  }
}
