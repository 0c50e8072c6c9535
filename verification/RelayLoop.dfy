/** The relay as the program runs it: an object whose maps, queues and counters the branches of
    the session loop update in place.  Every method does what `Relay` says it does. */
module RelayLoop {
  import opened Octets
  import Ports
  import opened Relay
  import opened RelayRuns

  /** The userspace stack, as far as the relay uses it. */
  class IpStack {
    var sockets: map<Handle, Socket>

    constructor ()
      ensures sockets == map[]
    {
      sockets := map[];
    }

    method Connect(h: Handle)
      requires h !in sockets
      modifies this
      ensures sockets == old(sockets)[h := NEW_SOCKET]
    {
      sockets := sockets[h := NEW_SOCKET];
    }

    /** Accepts a prefix: what the buffer has room for, nothing on a closed connection. */
    method SendBytes(h: Handle, bytes: seq<byte>) returns (n: nat)
      requires h in sockets
      modifies this
      ensures n == if old(sockets[h]).CanSend() then Min(old(sockets[h]).room, |bytes|) else 0
      ensures sockets == old(sockets)[h := old(sockets[h]).(sent := old(sockets[h]).sent + bytes[..n],
                                                           room := old(sockets[h]).room - n)]
    {
      var s := sockets[h];
      n := if s.CanSend() then Min(s.room, |bytes|) else 0;
      sockets := sockets[h := s.(sent := s.sent + bytes[..n], room := s.room - n)];
    }

    method RecvBytes(h: Handle, max: nat) returns (bytes: seq<byte>)
      requires h in sockets
      modifies this
      ensures bytes == old(sockets[h]).Rx()[..Min(max, |old(sockets[h]).Rx()|)]
      ensures sockets == old(sockets)[h := old(sockets[h]).(taken := old(sockets[h]).taken + |bytes|)]
    {
      var s := sockets[h];
      bytes := s.Rx()[..Min(max, |s.Rx()|)];
      sockets := sockets[h := s.(taken := s.taken + |bytes|)];
    }

    method CloseSocket(h: Handle, cause: Cause)
      requires h in sockets
      modifies this
      ensures sockets == old(sockets)[h := old(sockets[h]).Closing(cause)]
    {
      sockets := sockets[h := sockets[h].Closing(cause)];
    }
  }

  lemma {:induction false} DropAgain(q: seq<seq<byte>>, a: nat, n: nat)
    requires NoEmptyChunk(q)
    ensures Drop(Drop(q, a), n) == Drop(q, a + n)
  {
    if q != [] && a >= |q[0]| {
      DropAgain(q[1..], a - |q[0]|, n);
    } else if q != [] {
      var d := [q[0][a..]] + q[1..];
      assert d[1..] == q[1..];
      if a + n < |q[0]| {
        assert q[0][a..][n..] == q[0][a + n..];
      }
    }
  }

  /** Taking n bytes off the first chunk is dropping n bytes. */
  lemma DropFront(q: seq<seq<byte>>, n: nat)
    requires q != [] && n <= |q[0]| && NoEmptyChunk(q)
    ensures Drop(q, n) == if n == |q[0]| then q[1..] else [q[0][n..]] + q[1..]
    ensures n <= |Flatten(q)| && Flatten(q)[..n] == q[0][..n]
  {
    DropNothing(q[1..]);
  }

  lemma DropNothing(q: seq<seq<byte>>)
    requires NoEmptyChunk(q)
    ensures Drop(q, 0) == q
  {
    if q != [] {
      assert [q[0][0..]] + q[1..] == q;
    }
  }

  /** How far the flush loop got after `a` bytes. */
  predicate Flushing(q0: seq<seq<byte>>, s0: Socket, b0: nat, a: nat, q: seq<seq<byte>>, s: Socket, b: nat) {
    && a <= Accepted(s0, q0)
    && q == Drop(q0, a) && s == s0.(sent := s0.sent + Flatten(q0)[..a], room := s0.room - a)
    && b == SatSub(b0, a)
  }

  lemma FlushStarts(q0: seq<seq<byte>>, s0: Socket, b0: nat)
    requires NoEmptyChunk(q0)
    ensures Flushing(q0, s0, b0, 0, q0, s0, b0)
  {
    DropNothing(q0);
  }

  lemma FlushContinues(q0: seq<seq<byte>>, s0: Socket, b0: nat, a: nat, q: seq<seq<byte>>, s: Socket, b: nat,
                       n: nat)
    requires NoEmptyChunk(q0) && Flushing(q0, s0, b0, a, q, s, b) && q != []
    requires n == if s.CanSend() then Min(s.room, |q[0]|) else 0
    ensures Flushing(q0, s0, b0, a + n, if n == |q[0]| then q[1..] else [q[0][n..]] + q[1..],
                     s.(sent := s.sent + q[0][..n], room := s.room - n), SatSub(b, n))
    ensures n == 0 ==> a == Accepted(s0, q0)
  {
    hide Drop, Flatten, NoEmptyChunk;
    DropFlattens(q0, a);
    DropFront(q, n);
    DropAgain(q0, a, n);
    NextPart(Flatten(q0), a, n);
    Associative(s0.sent, Flatten(q0)[..a], q[0][..n]);
    if n == 0 {
      FirstChunk(q);
    }
  }

  lemma FirstChunk(q: seq<seq<byte>>)
    requires NoEmptyChunk(q) && q != []
    ensures q[0] != []
  {
  }

  lemma FlushEnds(q0: seq<seq<byte>>, s0: Socket, b0: nat, a: nat, s: Socket, b: nat)
    requires NoEmptyChunk(q0) && Flushing(q0, s0, b0, a, [], s, b)
    ensures a == Accepted(s0, q0)
  {
    DropFlattens(q0, a);
  }

  /** The sockets after the first k connections of a walk were looked at. */
  function ClosedFirst(w: World, forward: (u16, u16), order: seq<Handle>, k: nat): map<Handle, Socket>
    requires k <= |order|
  {
    if k == 0 then w.sockets else
    var before, h := ClosedFirst(w, forward, order, k - 1), order[k - 1];
    if h in w.conns && w.conns[h].forward == forward && h in before
    then before[h := before[h].Closing(Abrupt)] else before
  }

  lemma {:induction false} ClosedFirstKeys(w: World, forward: (u16, u16), order: seq<Handle>, k: nat)
    requires k <= |order|
    ensures ClosedFirst(w, forward, order, k).Keys == w.sockets.Keys
    ensures forall h :: h in w.sockets ==>
              ClosedFirst(w, forward, order, k)[h]
              == if h in order[..k] && h in w.conns && w.conns[h].forward == forward
                 then w.sockets[h].Closing(Abrupt) else w.sockets[h]
  {
    if k > 0 {
      ClosedFirstKeys(w, forward, order, k - 1);
      OneMoreListed(order, k);
    }
  }

  lemma OneMoreListed(order: seq<Handle>, k: nat)
    requires 0 < k <= |order|
    ensures forall h :: h in order[..k] <==> h in order[..k - 1] || h == order[k - 1]
  {
    assert order[..k] == order[..k - 1] + [order[k - 1]];
  }

  lemma ClosedAll(w: World, forward: (u16, u16), order: seq<Handle>)
    requires Lists(order, w.conns.Keys)
    ensures ClosedFirst(w, forward, order, |order|) == RemoveForward(w, forward).sockets
  {
    ClosedFirstKeys(w, forward, order, |order|);
    assert order[..|order|] == order;
  }

  lemma PortsInUse(w: World)
    ensures UsedPorts(w) == set c | c in w.conns :: w.conns[c].localPort
  {
  }

  lemma AcceptIs(w: World, h: Handle, forward: (u16, u16), next: u16, port: Option<u16>)
    requires Ports.InRange(w.nextPort) && (next, port) == Ports.Allocated(w.nextPort, UsedPorts(w))
    ensures Accept(w, h, forward)
            == if port.None? then w.(nextPort := next) else
               World(w.conns[h := Conn(forward, port.value, w.nextGeneration, false, false)],
                     w.pending[h := Queue(w, h) + [Be16(forward.1)]], w.pendingBytes + 2, next,
                     Succ(w.nextGeneration), w.accepts + 1, w.sockets[h := NEW_SOCKET],
                     w.bridges[w.nextGeneration := Bridge(h, forward.1, [], false, false, [], [])], w.inbox, w.gone)
  {
    hide Ports.Allocated, UsedPorts, Be16;
  }

  lemma PumpStarts(w: World, order: seq<Handle>)
    ensures PumpFirst(w, order, 0) == (w, [])
  {
  }

  lemma PumpContinues(w: World, order: seq<Handle>, k: nat)
    requires k < |order| && Inv(PumpFirst(w, order, k).0) && order[k] in PumpFirst(w, order, k).0.conns
    ensures var (w1, reap) := PumpFirst(w, order, k);
            && Bridged(w1, order[k])
            && PumpFirst(w, order, k + 1)
               == (PumpOne(w1, order[k]),
                   if Finished(BeforeEof(w1, order[k]), order[k]) then reap + [order[k]] else reap)
  {
    hide Inv, PumpOne, BeforeEof, Finished;
    InvParts(PumpFirst(w, order, k).0);
  }

  lemma RemovalStarts(w: World, reap: seq<Handle>)
    ensures RemoveFirst(w, reap, 0) == w
  {
  }

  lemma RemovalContinues(w: World, reap: seq<Handle>, k: nat)
    requires k < |reap|
    ensures RemoveFirst(w, reap, k + 1) == Remove(RemoveFirst(w, reap, k), reap[k])
  {
  }

  /** Some order of a set of handles. */
  method Listed(handles: set<Handle>) returns (order: seq<Handle>)
    ensures Lists(order, handles)
  {
    var rest := handles;
    order := [];
    while rest != {}
      invariant rest <= handles && Lists(order, handles - rest)
    {
      var h :| h in rest;
      rest := rest - {h};
      order := order + [h];
      assert forall k :: k in handles - rest ==> k in order by {
        assert forall k :: k in handles - rest ==> k in order[..|order| - 1] || k == h;
      }
    }
  }

  /** The sum of the chunk lengths of a queue. */
  method FlattenedLength(q: seq<seq<byte>>) returns (n: nat)
    ensures n == |Flatten(q)|
  {
    n := 0;
    var rest := q;
    while rest != []
      invariant n + |Flatten(rest)| == |Flatten(q)|
    {
      n := n + |rest[0]|;
      rest := rest[1..];
    }
  }

  class Client {
    const stack: IpStack
    const ports: Ports.PortAllocator
    var conns: map<Handle, Conn>
    var pendingTx: map<Handle, seq<seq<byte>>>
    var pendingTxBytes: nat
    var nextGeneration: u64
    // the bridge tasks with their channels, and the shared channel they send on
    var bridges: map<u64, Bridge>
    var inbox: seq<Message>
    // history
    ghost var accepts: nat
    ghost var gone: map<u64, Socket>

    ghost function State(): World
      reads this, stack, ports
    {
      World(conns, pendingTx, pendingTxBytes, ports.next, nextGeneration, accepts,
            stack.sockets, bridges, inbox, gone)
    }

    ghost predicate Valid()
      reads this, stack, ports
    {
      Inv(State())
    }

    constructor ()
      ensures State() == START
      ensures fresh(stack) && fresh(ports)
    {
      stack := new IpStack();
      ports := new Ports.PortAllocator();
      conns, pendingTx, pendingTxBytes, nextGeneration := map[], map[], 0, 1;
      bridges, inbox := map[], [];
      accepts, gone := 0, map[];
    }

    /** A local connection was accepted; `h` is the handle the stack hands out. */
    method AcceptConnection(h: Handle, forward: (u16, u16))
      requires Valid() && h !in stack.sockets
      modifies this, stack, ports
      ensures State() == Accept(old(State()), h, forward)
    {
      hide Ports.Allocated, Inv, Ports.InRange, ChannelOk, UsedPorts, Be16, Accept, Succ;
      ghost var w := State();
      InvParts(w);
      var used := set c | c in conns :: conns[c].localPort;
      assert used == UsedPorts(w) by { PortsInUse(w); }
      var localPort := ports.Allocate(used);
      AcceptIs(w, h, forward, ports.next, localPort);
      if localPort.None? {
        return;
      }
      stack.Connect(h);
      var generation := nextGeneration;
      nextGeneration := Succ(generation);
      bridges := bridges[generation := Bridge(h, forward.1, [], false, false, [], [])];
      conns := conns[h := Conn(forward, localPort.value, generation, false, false)];
      var queue := if h in pendingTx then pendingTx[h] else [];
      pendingTx := pendingTx[h := queue + [Be16(forward.1)]];
      pendingTxBytes := pendingTxBytes + 2;
      accepts := accepts + 1;
    }

    /** One message from the bridges, while the backlog is below its cap. */
    method ReceiveFromBridges()
      requires Valid()
      modifies this, stack
      ensures State() == ToStack(old(State()))
    {
      hide Inv, ChannelOk;
      InvParts(State());
      if inbox == [] || pendingTxBytes >= MAX_PENDING {
        return;
      }
      var Message(Key(h, generation), body) := inbox[0];
      inbox := inbox[1..];
      if h !in conns || conns[h].generation != generation {
        return;
      }
      match body
      case Data(bytes) =>
        pendingTxBytes := pendingTxBytes + |bytes|;
        var queue := if h in pendingTx then pendingTx[h] else [];
        pendingTx := pendingTx[h := queue + [bytes]];
      case Close =>
        if h in pendingTx {
          conns := conns[h := conns[h].(closeAfterFlush := true)];
        } else {
          stack.CloseSocket(h, ByMessage);
        }
    }

    /** `close_connections`, in whatever order the map is walked. */
    method CloseConnections(forward: (u16, u16), order: seq<Handle>)
      requires Valid() && Lists(order, conns.Keys)
      modifies stack
      ensures State() == RemoveForward(old(State()), forward)
    {
      hide Inv, ChannelOk;
      InvParts(State());
      ghost var w := State();
      for i := 0 to |order|
        invariant stack.sockets == ClosedFirst(w, forward, order, i)
      {
        if conns[order[i]].forward == forward {
          ClosedFirstKeys(w, forward, order, i);
          stack.CloseSocket(order[i], Abrupt);
        }
      }
      ClosedAll(w, forward, order);
    }

    method FlushQueue(h: Handle)
      requires h in stack.sockets && (h in pendingTx ==> NoEmptyChunk(pendingTx[h]))
      modifies this`pendingTx, this`pendingTxBytes, stack
      ensures State() == Flush(old(State()), h)
    {
      if h !in pendingTx {
        return;
      }
      var q := pendingTx[h];
      ghost var q0, sockets0, b0, a := q, stack.sockets, pendingTxBytes, 0;
      FlushStarts(q0, sockets0[h], b0);
      while q != []
        invariant h in stack.sockets && stack.sockets == sockets0[h := stack.sockets[h]]
        invariant Flushing(q0, sockets0[h], b0, a, q, stack.sockets[h], pendingTxBytes)
        invariant pendingTx == old(pendingTx)
        invariant q == [] ==> a == Accepted(sockets0[h], q0)
        decreases |Flatten(q0)| - a
      {
        ghost var s := stack.sockets[h];
        var n := stack.SendBytes(h, q[0]);
        FlushContinues(q0, sockets0[h], b0, a, q, s, pendingTxBytes, n);
        if n == 0 {
          assert stack.sockets[h] == s;
          break;
        }
        pendingTxBytes := SatSub(pendingTxBytes, n);
        q := if n == |q[0]| then q[1..] else [q[0][n..]] + q[1..];
        a := a + n;
        if q == [] {
          FlushEnds(q0, sockets0[h], b0, a, stack.sockets[h], pendingTxBytes);
        }
      }
      pendingTx := if q == [] then pendingTx - {h} else pendingTx[h := q];
    }

    /** Move what arrived into the bridge's channel while that has space. */
    method FillChannel(h: Handle)
      requires Bridged(State(), h)
      modifies this`bridges, stack
      ensures State() == Receive(old(State()), h) && Bridged(State(), h)
    {
      var g := conns[h].generation;
      ghost var sockets0, bridges0 := stack.sockets, bridges;
      while HasSpace(bridges[g])
        invariant h in stack.sockets && stack.sockets == sockets0[h := stack.sockets[h]]
        invariant g in bridges && bridges == bridges0[g := bridges[g]]
        invariant HandOver(stack.sockets[h], bridges[g]) == HandOver(sockets0[h], bridges0[g])
        decreases |stack.sockets[h].Rx()|
      {
        var bytes := stack.RecvBytes(h, PUMP_BUFFER);
        if bytes == [] {
          break;
        }
        bridges := bridges[g := Push(bridges[g], Chunk(bytes))];
      }
    }

    /** One connection of a pump; `over` says that it is to be reaped. */
    method PumpConnection(h: Handle) returns (over: bool)
      requires Valid() && h in conns
      modifies this`conns, this`pendingTx, this`pendingTxBytes, this`bridges, stack
      ensures h in old(conns) && Bridged(old(State()), h)
      ensures State() == PumpOne(old(State()), h)
      ensures over == Finished(BeforeEof(old(State()), h), h)
    {
      hide Inv, ChannelOk, Flush, Receive, NoEmptyChunk;
      ghost var w := State();
      InvParts(w);
      NoEmptyIn(w, h);
      FlushQueue(h);
      assert Bridged(State(), h) by { FlushTouches(w, h); }
      if h !in pendingTx && conns[h].closeAfterFlush {
        stack.CloseSocket(h, ByMessage);
        conns := conns[h := conns[h].(closeAfterFlush := false)];
      }
      assert State() == CloseFlushed(Flush(w, h), h);
      FillChannel(h);
      assert State() == BeforeEof(w, h);
      var g := conns[h].generation;
      var fromDrained := bridges[g].done || bridges[g].channel == [];
      over := stack.sockets[h].dead && fromDrained;
      if !over && stack.sockets[h].AtPeerEof() && !conns[h].peerEofSent {
        if bridges[g].done {
          stack.CloseSocket(h, Abrupt);
        } else if |bridges[g].channel| < CHANNEL_CAPACITY {
          bridges := bridges[g := Push(bridges[g], PeerEof)];
          conns := conns[h := conns[h].(peerEofSent := true)];
        }
      }
    }

    /** The whole pump: every connection once, in whatever order the map is walked, then the removal
        of those that are over. */
    method PumpAll(order: seq<Handle>)
      requires Valid() && Lists(order, conns.Keys)
      modifies this, stack
      ensures State() == Pump(old(State()), order)
    {
      hide Inv, PumpFirst, PumpOne, BeforeEof, Finished, RemoveFirst, Remove;
      ghost var w := State();
      PumpStarts(w, order);
      var reap: seq<Handle> := [];
      for i := 0 to |order|
        invariant (State(), reap) == PumpFirst(w, order, i)
        invariant Inv(State()) && conns.Keys == w.conns.Keys
      {
        PumpFirstKeeps(w, order, i + 1);
        PumpContinues(w, order, i);
        var over := PumpConnection(order[i]);
        if over {
          reap := reap + [order[i]];
        }
      }
      ghost var w1 := State();
      RemovalStarts(w1, reap);
      for i := 0 to |reap|
        invariant State() == RemoveFirst(w1, reap, i)
      {
        RemovalContinues(w1, reap, i);
        RemoveSocket(reap[i]);
      }
    }

    method RemoveSocket(h: Handle)
      modifies this, stack
      ensures State() == Remove(old(State()), h)
    {
      if h !in conns || h !in stack.sockets {
        return;
      }
      gone := gone[conns[h].generation := stack.sockets[h]];
      stack.sockets := stack.sockets - {h};
      if h in pendingTx {
        var dropped := FlattenedLength(pendingTx[h]);
        pendingTxBytes := SatSub(pendingTxBytes, dropped);
      }
      pendingTx := pendingTx - {h};
      conns := conns - {h};
    }

    /** One event: a branch of the loop or a pump, or a move of a bridge task or of the network.
        The object follows the model step by step and stays valid. */
    method Happens(e: Event)
      requires Valid() && Possible(State(), e)
      modifies this, stack, ports
      ensures State() == Step(old(State()), e) && Valid()
    {
      hide Inv, Pump, Lists, ToStack, Accept, RemoveForward;
      ghost var w := State();
      StepKeeps(w, e);
      match e
      case Accepts(h, forward) => AcceptConnection(h, forward);
      case TakesMessage => ReceiveFromBridges();
      case RemovesForward(forward) =>
        var order := Listed(conns.Keys);
        CloseConnections(forward, order);
      case Pumps(order) => PumpAll(order);
      case BridgeReads(g, bytes) =>
        var b := bridges[g];
        bridges := bridges[g := b.(produced := b.produced + bytes)];
        inbox := inbox + [Message(Key(b.handle, g), Data(bytes))];
      case BridgeSignalsClose(g) =>
        inbox := inbox + [Message(Key(bridges[g].handle, g), Close)];
        bridges := bridges[g := bridges[g].(ended := true)];
      case BridgeTakes(g) => bridges := bridges[g := bridges[g].(channel := bridges[g].channel[1..])];
      case BridgeReturns(g) => bridges := bridges[g := bridges[g].(done := true, channel := [])];
      case Drains(h, room) => stack.sockets := stack.sockets[h := stack.sockets[h].(room := room)];
      case Arrives(h, bytes) =>
        stack.sockets := stack.sockets[h := stack.sockets[h].(received := stack.sockets[h].received + bytes)];
      case FinArrives(h) => stack.sockets := stack.sockets[h := stack.sockets[h].(fin := true)];
      case Dies(h) => stack.sockets := stack.sockets[h := stack.sockets[h].(dead := true)];
    }
  }
}
