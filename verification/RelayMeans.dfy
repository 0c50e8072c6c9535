/** What the branches of the relay loop and the pump get done: the other half of what every run
    keeps. */
module RelayMeans {
  import opened Octets
  import Ports
  import opened Relay
  import opened RelayRuns

  // ---------------------------------------------------------------- messages of the bridges

  /** Below the cap of 32 MiB the first message is taken, and nothing at the cap. */
  lemma TakesFirst(w: World)
    ensures w.inbox == [] || w.pendingBytes >= 0x200_0000 ==> ToStack(w) == w
    ensures w.inbox != [] && w.pendingBytes < 0x200_0000 ==> ToStack(w).inbox == w.inbox[1..]
  {
  }

  /** Data for a current connection joins the end of its queue; no other part of the world moves. */
  lemma TakesData(w: World, h: Handle, bytes: seq<byte>)
    requires w.pendingBytes < 0x200_0000 && w.inbox != [] && h in w.conns
    requires w.inbox[0] == Message(Key(h, w.conns[h].generation), Data(bytes))
    ensures var w' := ToStack(w);
            && h in w'.pending && w'.pending[h] == Queue(w, h) + [bytes]
            && w'.pending - {h} == w.pending - {h} && w'.pendingBytes == w.pendingBytes + |bytes|
            && w'.conns == w.conns && w'.sockets == w.sockets && w'.bridges == w.bridges && w'.gone == w.gone
  {
  }

  /** A `Close` for a current connection is put off while bytes are queued, and closes the socket at
      once otherwise; it never goes unnoticed. */
  lemma TakesClose(w: World, h: Handle)
    requires Inv(w) && w.pendingBytes < 0x200_0000 && w.inbox != [] && h in w.conns
    requires w.inbox[0] == Message(Key(h, w.conns[h].generation), Close)
    ensures var w' := ToStack(w);
            && w'.inbox == w.inbox[1..] && w'.pending == w.pending && h in w'.conns && h in w'.sockets
            && (Queue(w, h) != [] ==> w'.conns[h].closeAfterFlush && w'.sockets == w.sockets)
            && (Queue(w, h) == [] ==> w'.sockets[h].closedBy.Some? && w'.conns == w.conns)
            && (forall k :: k in w.conns && k != h ==> k in w'.conns && w'.conns[k] == w.conns[k])
            && (forall k :: k in w.sockets && k != h ==> k in w'.sockets && w'.sockets[k] == w.sockets[k])
  {
    hide Inv;
    InvParts(w);
    QueueNotEmpty(w, h);
  }

  /** A message for an earlier use of a handle, or for one no longer in use, is dropped. */
  lemma DropsStale(w: World)
    requires w.pendingBytes < 0x200_0000 && w.inbox != []
    requires var key := w.inbox[0].key; key.handle in w.conns ==> w.conns[key.handle].generation != key.generation
    ensures ToStack(w) == w.(inbox := w.inbox[1..])
  {
  }

  lemma {:induction false} LastCloseInInbox(inbox: seq<Message>, key: Key)
    requires LastIsClose(MessagesFor(inbox, key))
    ensures Message(key, Close) in inbox
  {
    if inbox != [] {
      var rest := MessagesFor(inbox[1..], key);
      MessagesTail(inbox, key);
      if inbox[0].key == key && rest == [] {
        assert MessagesFor(inbox, key)[0] == inbox[0].body;
        assert inbox[0] == Message(key, Close);
      } else {
        LastCloseInInbox(inbox[1..], key);
      }
    }
  }

  /** No FIN is forgotten: in every run, a live connection whose bridge ended has its `Close` still
      on the channel, or put off until its queue is sent, or its socket closed. */
  lemma EndedIsClosing(events: seq<Event>, g: u64)
    requires Live(Run(events), g) && Run(events).bridges[g].ended
    ensures var w := Run(events);
            var h := w.bridges[g].handle;
            && h in w.conns && h in w.sockets && w.conns[h].generation == g
            && (Message(Key(h, g), Close) in w.inbox || w.conns[h].closeAfterFlush || w.sockets[h].closedBy.Some?)
  {
    hide Run, Inv, Delivered, Orderly, ChannelOk, Flatten, InFlight, MessagesFor, NoData, NoEmptyChunk, Stream;
    RunKeeps(events);
    var w := Run(events);
    SocketFacts(w, g);
    var h := w.bridges[g].handle;
    if LastIsClose(MessagesFor(w.inbox, Key(h, g))) {
      LastCloseInInbox(w.inbox, Key(h, g));
    }
  }

  // ---------------------------------------------------------------- connections

  /** As long as a port is free a local connection becomes one of the relay's, with the next
      generation, a fresh bridge, and its destination port first in its queue; else it is dropped. */
  lemma AcceptMeans(w: World, h: Handle, forward: (u16, u16))
    requires 40000 <= w.nextPort && h !in w.pending
    ensures var w' := Accept(w, h, forward);
            if forall p: u16 :: 40000 <= p ==> p in UsedPorts(w) then w' == w
            else
              && h in w'.conns && w'.conns == w.conns[h := w'.conns[h]]
              && w'.conns[h].forward == forward && w'.conns[h].generation == w.nextGeneration
              && 40000 <= w'.conns[h].localPort && w'.conns[h].localPort !in UsedPorts(w)
              && !w'.conns[h].closeAfterFlush && !w'.conns[h].peerEofSent
              && h in w'.pending && w'.pending[h] == [[forward.1 / 0x100, forward.1 % 0x100]]
              && w'.pending - {h} == w.pending - {h} && w'.pendingBytes == w.pendingBytes + 2
              && w'.sockets == w.sockets[h := NEW_SOCKET] && w'.inbox == w.inbox && w'.gone == w.gone
              && w.nextGeneration in w'.bridges && w'.bridges[w.nextGeneration].handle == h
              && !w'.bridges[w.nextGeneration].ended && w'.bridges[w.nextGeneration].port == forward.1
  {
    hide Ports.Allocated, UsedPorts;
    Ports.AllocatedOnNumbers(w.nextPort, UsedPorts(w));
    assert Queue(w, h) + [Header(forward.1)] == [Header(forward.1)];
    assert Header(forward.1) == [forward.1 / 0x100, forward.1 % 0x100];
    var port := Ports.Allocated(w.nextPort, UsedPorts(w)).1;
    if port.Some? {
      assert Accept(w, h, forward).conns[h].localPort == port.value;
    }
  }

  /** Generations count up from 1 and never are 0, even after 2^64 - 1 of them. */
  lemma GenerationsCount(g: u64)
    ensures Succ(g) == if (g + 1) % 0x1_0000_0000_0000_0000 == 0 then 1 else g + 1
  {
  }

  /** The sockets of a removed forward are closed, and no others. */
  lemma RemovesForwardExactly(w: World, forward: (u16, u16))
    requires w.sockets.Keys == w.conns.Keys
    ensures var w' := RemoveForward(w, forward);
            && w'.sockets.Keys == w.sockets.Keys && w' == w.(sockets := w'.sockets)
            && forall h :: h in w.conns ==>
                 if w.conns[h].forward == forward then w'.sockets[h].closedBy.Some?
                 else w'.sockets[h] == w.sockets[h]
  {
  }

  // ---------------------------------------------------------------- one connection of a pump

  /** Nothing that a pump could do is left to do for this connection. */
  predicate Settled(v: View) {
    // queued bytes wait for room only, or have nowhere to go
    && (v.queue != [] ==> v.socket.room == 0 || v.socket.closedBy.Some? || v.socket.dead)
    // a close is put off only for queued bytes
    && (v.conn.closeAfterFlush ==> v.queue != [])
    // received bytes wait for a place in the channel only
    && (v.socket.taken < |v.socket.received| ==> v.bridge.done || |v.bridge.channel| >= 16)
    // the end of file is told, or waits for a place, or there is nobody to tell
    && (v.socket.fin && v.socket.taken >= |v.socket.received| && !v.socket.dead ==>
          v.conn.peerEofSent || |v.bridge.channel| >= 16 || (v.bridge.done && v.socket.closedBy.Some?))
  }

  /** The connection is over: its socket is dead and its bridge is gone or has taken all there was. */
  predicate Over(v: View) {
    v.socket.dead
    && (v.bridge.done || (v.bridge.channel == [] && v.socket.taken >= |v.socket.received|))
  }

  lemma FlushStage(w: World, h: Handle)
    requires Inv(w) && h in w.conns
    ensures var w' := Flush(w, h);
            && Bridged(w, h) && Bridged(w', h)
            && var v, v' := ViewOf(w, h), ViewOf(w', h);
               && v'.conn == v.conn && v'.bridge == v.bridge
               && v'.socket == v.socket.(sent := v'.socket.sent, room := v'.socket.room)
               && (v'.queue != [] ==> v'.socket.room == 0 || v'.socket.closedBy.Some? || v'.socket.dead)
               && (h in w'.pending <==> v'.queue != [])
  {
    hide Inv, ViewOk, Counted, Flatten, Drop, MessagesFor;
    LiveView(w, h);
    QueueNotEmpty(w, h);
    if h in w.pending {
      NoEmptyIn(w, h);
      DropFlattens(w.pending[h], Accepted(w.sockets[h], w.pending[h]));
    }
  }

  lemma CloseStage(w: World, h: Handle)
    requires Bridged(w, h) && (h in w.pending <==> Queue(w, h) != [])
    ensures var w' := CloseFlushed(w, h);
            && Bridged(w', h)
            && var v, v' := ViewOf(w, h), ViewOf(w', h);
               && v'.queue == v.queue && v'.bridge == v.bridge
               && v'.socket == v.socket.(closedBy := v'.socket.closedBy)
               && (v.socket.closedBy.Some? ==> v'.socket.closedBy.Some?)
               && v'.conn == v.conn.(closeAfterFlush := v'.conn.closeAfterFlush)
               && (v'.conn.closeAfterFlush ==> v'.queue != [])
  {
    hide MessagesFor;
  }

  lemma {:induction false} HandOverFills(s: Socket, b: Bridge)
    requires s.taken <= |s.received| && |b.channel| <= 16
    ensures var (s', b') := HandOver(s, b);
            && s'.taken <= |s'.received| && s' == s.(taken := s'.taken)
            && b' == b.(channel := b'.channel, handed := b'.handed)
            && (s'.taken < |s'.received| ==> b'.done || |b'.channel| >= 16)
            && (b'.channel == [] <==> b.channel == [] && (b.done || s.taken == |s.received|))
    decreases |s.received| - s.taken
  {
    hide HandOver;
    HandOverUnfolds(s, b);
    var n := Min(PUMP_BUFFER, |s.Rx()|);
    if HasSpace(b) && n != 0 {
      HandOverFills(s.(taken := s.taken + n), Push(b, Chunk(s.Rx()[..n])));
    }
  }

  lemma ReceiveStage(w: World, h: Handle)
    requires Inv(w) && h in w.conns
    ensures var w' := Receive(w, h);
            && Bridged(w, h) && Bridged(w', h)
            && var v, v' := ViewOf(w, h), ViewOf(w', h);
               && v'.queue == v.queue && v'.conn == v.conn && v'.socket == v.socket.(taken := v'.socket.taken)
               && v'.bridge == v.bridge.(channel := v'.bridge.channel, handed := v'.bridge.handed)
               && v'.socket.taken <= |v'.socket.received|
               && (v'.socket.taken < |v'.socket.received| ==> v'.bridge.done || |v'.bridge.channel| >= 16)
               && (Over(v) <==> v'.socket.dead && (v'.bridge.done || v'.bridge.channel == []))
  {
    hide Inv, MessagesFor, HandOver, Orderly, Flatten, InFlight, NoEmptyChunk, NoData, Stream;
    LiveView(w, h);
    HandOverFills(w.sockets[h], w.bridges[w.conns[h].generation]);
  }

  lemma EofStage(w: World, h: Handle)
    requires Bridged(w, h)
    ensures var w' := TellEof(w, h);
            && Bridged(w', h)
            && var v, v' := ViewOf(w, h), ViewOf(w', h);
               && v'.queue == v.queue && v'.socket == v.socket.(closedBy := v'.socket.closedBy)
               && (v.socket.closedBy.Some? ==> v'.socket.closedBy.Some?)
               && v'.conn == v.conn.(peerEofSent := v'.conn.peerEofSent)
               && v'.bridge.done == v.bridge.done && |v'.bridge.channel| >= |v.bridge.channel|
               && (!(v.socket.dead && (v.bridge.done || v.bridge.channel == []))
                   && v.socket.fin && v.socket.taken >= |v.socket.received| && !v.socket.dead ==>
                     v'.conn.peerEofSent || |v'.bridge.channel| >= 16
                     || (v'.bridge.done && v'.socket.closedBy.Some?))
  {
    hide MessagesFor;
  }

  /** A connection's turn in the pump leaves it settled, and finds it over exactly when it was. */
  lemma TurnSettles(w: World, h: Handle)
    requires Inv(w) && h in w.conns
    ensures Bridged(w, h) && (Finished(BeforeEof(w, h), h) <==> Over(ViewOf(w, h)))
    ensures Bridged(PumpOne(w, h), h) && Settled(ViewOf(PumpOne(w, h), h))
  {
    hide Inv, Flush, CloseFlushed, Receive, TellEof, ViewOf;
    FlushStage(w, h);
    FlushKeeps(w, h);
    var w1 := Flush(w, h);
    QueueSeen(w1, h);
    CloseStage(w1, h);
    CloseFlushedKeeps(w1, h);
    var w2 := CloseFlushed(w1, h);
    KeysSame(w1, w2, h);
    ReceiveStage(w2, h);
    var w3 := Receive(w2, h);
    EofStage(w3, h);
    FinishedSeen(w3, h);
  }

  lemma QueueSeen(w: World, h: Handle)
    requires Bridged(w, h)
    ensures ViewOf(w, h).queue == Queue(w, h)
  {
  }

  lemma KeysSame(w: World, w': World, h: Handle)
    requires OnlyTouches(w, w', h)
    ensures Bridged(w', h)
  {
  }

  lemma FinishedSeen(w: World, h: Handle)
    requires Bridged(w, h)
    ensures Finished(w, h)
            <==> var v := ViewOf(w, h); v.socket.dead && (v.bridge.done || v.bridge.channel == [])
  {
    hide MessagesFor;
  }

  // ---------------------------------------------------------------- the whole pump

  /** A turn moves no other connection. */
  lemma TurnTouches(w: World, h: Handle)
    requires Inv(w) && h in w.conns
    ensures Bridged(w, h) && Inv(PumpOne(w, h)) && PumpOne(w, h).conns.Keys == w.conns.Keys
    ensures forall k :: k in w.conns && k != h ==>
              Bridged(w, k) && Bridged(PumpOne(w, h), k) && ViewOf(PumpOne(w, h), k) == ViewOf(w, k)
  {
    hide Inv, Flush, CloseFlushed, Receive, TellEof, ViewOf, OnlyTouches;
    InvParts(w);
    FlushKeeps(w, h);
    var w1 := Flush(w, h);
    OthersSeen(w, w1, h);
    KeysSame(w, w1, h);
    CloseFlushedKeeps(w1, h);
    var w2 := CloseFlushed(w1, h);
    OthersSeen(w1, w2, h);
    KeysSame(w1, w2, h);
    ReceiveKeeps(w2, h);
    var w3 := Receive(w2, h);
    OthersSeen(w2, w3, h);
    KeysSame(w2, w3, h);
    TellEofKeeps(w3, h);
    OthersSeen(w3, TellEof(w3, h), h);
  }

  lemma OthersSeen(w: World, w': World, h: Handle)
    requires Inv(w) && OnlyTouches(w, w', h)
    ensures w'.conns.Keys == w.conns.Keys
    ensures forall k :: k in w.conns && k != h ==> Bridged(w, k) && Bridged(w', k) && ViewOf(w', k) == ViewOf(w, k)
  {
    hide MessagesFor, Counted, ViewsOk, Keyed, AllGoneOk, Numbered, LiveOrGone;
    GenerationsDistinct(w);
    forall k | k in w.conns && k != h
      ensures Bridged(w, k) && Bridged(w', k) && ViewOf(w', k) == ViewOf(w, k)
    {
    }
  }

  /** How far the first k turns got. */
  ghost predicate TurnsDone(w: World, order: seq<Handle>, k: nat)
    requires k <= |order|
  {
    var (w1, reap) := PumpFirst(w, order, k);
    && Inv(w1) && w1.conns.Keys == w.conns.Keys
    && (forall h :: h in w.conns ==> Bridged(w, h) && Bridged(w1, h))
    && (forall h :: h in reap <==> h in order[..k] && h in w.conns && Over(ViewOf(w, h)))
    && (forall h :: h in w.conns ==> if h in order[..k] then Settled(ViewOf(w1, h)) else ViewOf(w1, h) == ViewOf(w, h))
  }

  lemma {:induction false} TurnsSettle(w: World, order: seq<Handle>, k: nat)
    requires Inv(w) && Lists(order, w.conns.Keys) && k <= |order|
    ensures TurnsDone(w, order, k)
  {
    hide Inv, PumpOne, BeforeEof, Finished, ViewOf, Settled, Over, Bridged;
    if k == 0 {
      AllBridged(w);
    } else {
      TurnsSettle(w, order, k - 1);
      OneTurn(w, order, k);
    }
  }

  lemma OneTurn(w: World, order: seq<Handle>, k: nat)
    requires Inv(w) && Lists(order, w.conns.Keys) && 0 < k <= |order| && TurnsDone(w, order, k - 1)
    ensures TurnsDone(w, order, k)
  {
    hide Inv, PumpOne, BeforeEof, Finished, ViewOf, Settled, Over, Bridged, PumpFirst;
    var (w0, reap) := PumpFirst(w, order, k - 1);
    var h := order[k - 1];
    assert h in w.conns && forall i, j :: 0 <= i < j < |order| ==> order[i] != order[j];
    hide Lists;
    TurnSettles(w0, h);
    TurnTouches(w0, h);
    Prefix(order, k);
    NextTurn(w, order, k);
  }

  lemma NextTurn(w: World, order: seq<Handle>, k: nat)
    requires 0 < k <= |order| && Bridged(PumpFirst(w, order, k - 1).0, order[k - 1])
    ensures var (w0, reap) := PumpFirst(w, order, k - 1);
            PumpFirst(w, order, k)
            == (PumpOne(w0, order[k - 1]),
                if Finished(BeforeEof(w0, order[k - 1]), order[k - 1]) then reap + [order[k - 1]] else reap)
  {
    hide PumpOne, BeforeEof, Finished, Bridged;
  }

  lemma AllBridged(w: World)
    requires Inv(w)
    ensures forall h :: h in w.conns ==> Bridged(w, h)
  {
    hide Inv;
    InvParts(w);
  }

  lemma Prefix(order: seq<Handle>, k: nat)
    requires 0 < k <= |order| && forall i, j :: 0 <= i < j < |order| ==> order[i] != order[j]
    ensures order[k - 1] !in order[..k - 1]
    ensures forall h :: h in order[..k] <==> h in order[..k - 1] || h == order[k - 1]
  {
    assert order[..k] == order[..k - 1] + [order[k - 1]];
  }

  lemma {:induction false} RemovalsLeave(w: World, reap: seq<Handle>, k: nat)
    requires k <= |reap| && Inv(w)
    ensures var w' := RemoveFirst(w, reap, k);
            && Inv(w')
            && (forall h :: h in w'.conns <==> h in w.conns && h !in reap[..k])
            && (forall h :: h in w'.conns ==> Bridged(w, h) && Bridged(w', h) && ViewOf(w', h) == ViewOf(w, h))
  {
    hide Inv, Remove, ViewOf, Bridged;
    if k == 0 {
      AllBridged(w);
    } else {
      RemovalsLeave(w, reap, k - 1);
      var w1 := RemoveFirst(w, reap, k - 1);
      RemoveKeeps(w1, reap[k - 1]);
      RemovalLeaves(w1, reap[k - 1]);
      assert reap[..k] == reap[..k - 1] + [reap[k - 1]];
    }
  }

  lemma RemovalLeaves(w: World, h: Handle)
    requires Inv(w)
    ensures var w' := Remove(w, h);
            && (forall k :: k in w'.conns <==> k in w.conns && k != h)
            && (forall k :: k in w'.conns ==> Bridged(w, k) && Bridged(w', k) && ViewOf(w', k) == ViewOf(w, k))
  {
    hide Inv, MessagesFor;
    InvParts(w);
  }

  /** A pump, in whatever order it walks the connections, removes exactly those that are over, and
      leaves all others settled: everything that could be sent, closed, handed over or told was. */
  lemma PumpSettles(w: World, order: seq<Handle>)
    requires Inv(w) && Lists(order, w.conns.Keys)
    ensures var w' := Pump(w, order);
            && (forall h :: h in w.conns ==> Bridged(w, h))
            && (forall h :: h in w'.conns <==> h in w.conns && !Over(ViewOf(w, h)))
            && (forall h :: h in w'.conns ==> Bridged(w', h) && Settled(ViewOf(w', h)))
  {
    hide Inv, PumpFirst, RemoveFirst, ViewOf, Settled, Over, Bridged;
    TurnsSettle(w, order, |order|);
    var (w1, reap) := PumpFirst(w, order, |order|);
    RemovalsLeave(w1, reap, |reap|);
    assert order[..|order|] == order && reap[..|reap|] == reap;
  }
}
