/** What the relay keeps in every run: each connection's stream reaches the stack whole and in
    order, the byte accounting is exact and bounded, and what the stack received reaches the
    bridge in order. */
module RelayRuns {
  import opened Octets
  import Ports
  import opened Relay

  // ---------------------------------------------------------------- queues of bytes

  lemma {:induction false} FlattenAppend(q: seq<seq<byte>>, chunk: seq<byte>)
    ensures Flatten(q + [chunk]) == Flatten(q) + chunk
  {
    if q == [] {
      assert [chunk][1..] == [];
    } else {
      assert (q + [chunk])[1..] == q[1..] + [chunk];
      FlattenAppend(q[1..], chunk);
    }
  }

  predicate NoEmptyChunk(q: seq<seq<byte>>) {
    forall i :: 0 <= i < |q| ==> q[i] != []
  }

  lemma Unfolds(q: seq<seq<byte>>, n: nat)
    ensures Flatten(q) == if q == [] then [] else q[0] + Flatten(q[1..])
    ensures Drop(q, n) == if q == [] then [] else if n < |q[0]| then [q[0][n..]] + q[1..] else Drop(q[1..], n - |q[0]|)
  {
  }

  lemma TailOfSum<T>(a: seq<T>, b: seq<T>, n: nat)
    requires n <= |a|
    ensures (a + b)[n..] == a[n..] + b
  {
  }

  lemma RestOfSum<T>(a: seq<T>, b: seq<T>, n: nat)
    requires |a| <= n <= |a| + |b|
    ensures (a + b)[n..] == b[n - |a|..]
  {
  }

  /** Dropping n bytes from a queue drops them from the stream. */
  lemma {:induction false} DropFlattens(q: seq<seq<byte>>, n: nat)
    requires n <= |Flatten(q)| && NoEmptyChunk(q)
    ensures Flatten(Drop(q, n)) == Flatten(q)[n..]
    ensures NoEmptyChunk(Drop(q, n))
    ensures Drop(q, n) == [] <==> n == |Flatten(q)|
  {
    hide Flatten, Drop;
    Unfolds(q, n);
    if q != [] {
      if n < |q[0]| {
        var d := [q[0][n..]] + q[1..];
        assert d[0] == q[0][n..] && d[1..] == q[1..];
        Unfolds(d, 0);
        TailOfSum(q[0], Flatten(q[1..]), n);
      } else {
        DropFlattens(q[1..], n - |q[0]|);
        RestOfSum(q[0], Flatten(q[1..]), n);
      }
    }
  }

  // ---------------------------------------------------------------- messages of one key

  function MessagesFor(inbox: seq<Message>, key: Key): seq<StackMsg> {
    if inbox == [] then [] else
    (if inbox[0].key == key then [inbox[0].body] else []) + MessagesFor(inbox[1..], key)
  }

  lemma {:induction false} MessagesAppend(inbox: seq<Message>, m: Message, key: Key)
    ensures MessagesFor(inbox + [m], key) == MessagesFor(inbox, key) + (if m.key == key then [m.body] else [])
  {
    if inbox == [] {
      assert [m][1..] == [];
    } else {
      assert (inbox + [m])[1..] == inbox[1..] + [m];
      MessagesAppend(inbox[1..], m, key);
    }
  }

  function InFlight(msgs: seq<StackMsg>): seq<byte> {
    if msgs == [] then [] else (if msgs[0].Data? then msgs[0].bytes else []) + InFlight(msgs[1..])
  }

  lemma {:induction false} InFlightAppend(msgs: seq<StackMsg>, m: StackMsg)
    ensures InFlight(msgs + [m]) == InFlight(msgs) + (if m.Data? then m.bytes else [])
  {
    if msgs == [] {
      assert [m][1..] == [];
    } else {
      assert (msgs + [m])[1..] == msgs[1..] + [m];
      InFlightAppend(msgs[1..], m);
    }
  }

  predicate NoData(msgs: seq<StackMsg>) {
    forall i :: 0 <= i < |msgs| ==> msgs[i].Close?
  }

  lemma {:induction false} NothingInFlight(msgs: seq<StackMsg>)
    requires NoData(msgs)
    ensures InFlight(msgs) == []
  {
    if msgs != [] {
      NothingInFlight(msgs[1..]);
    }
  }

  /** A bridge that has not signalled a close has no close under way, chunks are never empty and
      fit the bridge's buffer, and nothing but closes follows a close. */
  predicate Orderly(ended: bool, msgs: seq<StackMsg>) {
    && (!ended ==> forall i :: 0 <= i < |msgs| ==> msgs[i].Data?)
    && (forall i :: 0 <= i < |msgs| && msgs[i].Data? ==> 0 < |msgs[i].bytes| <= BRIDGE_BUFFER)
    && (forall i, j :: 0 <= i < j < |msgs| && msgs[i].Close? ==> msgs[j].Close?)
  }

  // ---------------------------------------------------------------- toward the bridge

  function Chunks(handed: seq<BridgeMsg>): seq<byte> {
    if handed == [] then [] else
    Chunks(handed[..|handed| - 1]) + (var m := handed[|handed| - 1]; if m.Chunk? then m.bytes else [])
  }

  lemma ChunksPush(handed: seq<BridgeMsg>, m: BridgeMsg)
    ensures Chunks(handed + [m]) == Chunks(handed) + (if m.Chunk? then m.bytes else [])
  {
    assert (handed + [m])[..|handed|] == handed;
  }

  predicate Told(handed: seq<BridgeMsg>) {
    handed != [] && handed[|handed| - 1].PeerEof?
  }

  /** What was handed to the bridge is what arrived, so far, and an end of file only at its end. */
  predicate Delivered(handed: seq<BridgeMsg>, s: Socket) {
    && s.taken <= |s.received| && Chunks(handed) == s.received[..s.taken]
    && (forall i :: 0 <= i < |handed| - 1 ==> handed[i].Chunk?)
    && (Told(handed) ==> s.fin && s.taken == |s.received|)
  }

  predicate ChannelOk(b: Bridge) {
    && |b.channel| <= CHANNEL_CAPACITY
    && (b.done ==> b.ended && b.channel == [])
    && |b.channel| <= |b.handed| && b.channel == b.handed[|b.handed| - |b.channel|..]
  }

  // ---------------------------------------------------------------- one connection

  /** All that concerns one live connection. */
  datatype View = View(conn: Conn, queue: seq<seq<byte>>, socket: Socket, bridge: Bridge, msgs: seq<StackMsg>)

  function Stream(b: Bridge): seq<byte> {
    Header(b.port) + b.produced
  }

  function ViewOf(w: World, h: Handle): View
    requires Bridged(w, h)
  {
    var c := w.conns[h];
    View(c, Queue(w, h), w.sockets[h], w.bridges[c.generation], MessagesFor(w.inbox, Key(h, c.generation)))
  }

  predicate CloseHandled(v: View) {
    v.conn.closeAfterFlush || v.socket.closedBy == Some(ByMessage)
  }

  predicate ViewOk(v: View) {
    && v.socket.sent + Flatten(v.queue) + InFlight(v.msgs) == Stream(v.bridge)
    && |v.socket.sent| + |Flatten(v.queue)| >= 2
    && NoEmptyChunk(v.queue)
    && (CloseHandled(v) ==> v.bridge.ended && NoData(v.msgs))
    && (v.socket.closedBy == Some(ByMessage) ==> v.queue == [])
    && Delivered(v.bridge.handed, v.socket)
    && (v.conn.peerEofSent <==> Told(v.bridge.handed))
    && Orderly(v.bridge.ended, v.msgs) && ChannelOk(v.bridge)
    && CloseUnderWay(v)
  }

  /** The close of a bridge that ended is on the channel, put off, or done. */
  predicate CloseUnderWay(v: View) {
    v.bridge.ended ==> LastIsClose(v.msgs) || v.conn.closeAfterFlush || v.socket.closedBy.Some?
  }

  predicate LastIsClose(msgs: seq<StackMsg>) {
    msgs != [] && msgs[|msgs| - 1].Close?
  }

  // ---------------------------------------------------------------- sums over maps

  ghost function Sum(m: map<Handle, nat>): nat {
    if m == map[] then 0 else
    var k :| k in m;
    m[k] + Sum(m - {k})
  }

  function At(m: map<Handle, nat>, k: Handle): nat {
    if k in m then m[k] else 0
  }

  lemma {:induction false} SumSplit(m: map<Handle, nat>, k: Handle)
    ensures Sum(m) == At(m, k) + Sum(m - {k})
    decreases |m|
  {
    if k in m {
      var j :| j in m && Sum(m) == m[j] + Sum(m - {j});
      if j != k {
        SumSplit(m - {j}, k);
        SumSplit(m - {k}, j);
        assert m - {j} - {k} == m - {k} - {j};
      }
    } else {
      assert m - {k} == m;
    }
  }

  /** Changing a map at one key changes the sum by as much. */
  lemma SumChanged(m: map<Handle, nat>, m': map<Handle, nat>, k: Handle)
    requires m - {k} == m' - {k}
    ensures Sum(m') + At(m, k) == Sum(m) + At(m', k)
  {
    SumSplit(m, k);
    SumSplit(m', k);
  }

  lemma {:induction false} SumAtMostTwice(m: map<Handle, nat>)
    requires forall k :: k in m ==> m[k] <= 2
    ensures Sum(m) <= 2 * |m|
    decreases |m|
  {
    if m != map[] {
      var k :| k in m && Sum(m) == m[k] + Sum(m - {k});
      SumAtMostTwice(m - {k});
      SizeWithout(m, k);
    }
  }

  lemma SizeWithout(m: map<Handle, nat>, k: Handle)
    requires k in m
    ensures |m - {k}| == |m| - 1
  {
    assert (m - {k}).Keys == m.Keys - {k};
    assert |m.Keys - {k}| == |m.Keys| - 1;
  }

  // ---------------------------------------------------------------- the invariant

  function QueueBytes(w: World): map<Handle, nat> {
    map h | h in w.pending :: |Flatten(w.pending[h])|
  }

  /** Bytes of the two-byte port header a socket has not yet accepted. */
  function HeaderBytes(w: World): map<Handle, nat> {
    map h | h in w.sockets :: if |w.sockets[h].sent| >= 2 then 0 else 2 - |w.sockets[h].sent|
  }

  ghost predicate Counted(w: World) {
    && w.pendingBytes == Sum(QueueBytes(w))
    && w.pendingBytes <= MAX_PENDING - 1 + BRIDGE_BUFFER + Sum(HeaderBytes(w))
  }

  predicate Structured(w: World) {
    && w.sockets.Keys == w.conns.Keys && w.pending.Keys <= w.conns.Keys
    && (forall h :: h in w.pending ==> w.pending[h] != [])
    && (forall h :: h in w.conns ==>
          && Bridged(w, h) && w.bridges[w.conns[h].generation].handle == h
          && Ports.InRange(w.conns[h].localPort) && w.conns[h].generation !in w.gone)
    && PortsDistinct(w)
  }

  predicate PortsDistinct(w: World) {
    forall h1, h2 :: h1 in w.conns && h2 in w.conns && h1 != h2 ==>
      w.conns[h1].localPort != w.conns[h2].localPort
  }

  predicate Numbered(w: World) {
    && Ports.InRange(w.nextPort)
    && (w.accepts < MAX_GENERATION ==> w.nextGeneration == w.accepts + 1)
    && (forall g :: g in w.bridges ==> 0 < g <= w.accepts)
  }

  /** Every generation is live or gone. */
  predicate LiveOrGone(w: World) {
    && (forall g :: g in w.bridges ==> Current(w, Key(w.bridges[g].handle, g)) || g in w.gone)
    && (forall g :: g in w.gone ==> g in w.bridges)
  }

  predicate Keyed(w: World) {
    && (forall i :: 0 <= i < |w.inbox| ==>
          var k := w.inbox[i].key; k.generation in w.bridges && w.bridges[k.generation].handle == k.handle)
    && (forall g :: g in w.bridges ==>
          Orderly(w.bridges[g].ended, MessagesFor(w.inbox, Key(w.bridges[g].handle, g))) && ChannelOk(w.bridges[g]))
  }

  predicate GoneOk(b: Bridge, s: Socket) {
    && s.sent <= Stream(b)
    && (s.closedBy == Some(ByMessage) ==> b.ended && s.sent == Stream(b))
    && Delivered(b.handed, s)
  }

  predicate ViewsOk(w: World) {
    forall h :: h in w.conns ==> Bridged(w, h) && ViewOk(ViewOf(w, h))
  }

  predicate AllGoneOk(w: World) {
    forall g :: g in w.gone ==> g in w.bridges && GoneOk(w.bridges[g], w.gone[g])
  }

  ghost predicate Inv(w: World) {
    && Structured(w) && Numbered(w) && LiveOrGone(w) && Keyed(w) && Counted(w)
    && ViewsOk(w) && AllGoneOk(w)
  }

  // ---------------------------------------------------------------- pumping one connection

  /** The stages of a pump touch one connection and leave the rest of the world alone. */
  predicate OnlyTouches(w: World, w': World, h: Handle) {
    && Bridged(w, h) && Bridged(w', h)
    && w'.conns.Keys == w.conns.Keys && w'.sockets.Keys == w.sockets.Keys
    && w'.bridges.Keys == w.bridges.Keys
    && (forall h' :: h' in w.conns && h' != h ==>
          w'.conns[h'] == w.conns[h'] && Queue(w', h') == Queue(w, h') && (h' in w'.pending <==> h' in w.pending))
    && (forall h' :: h' in w.sockets && h' != h ==> w'.sockets[h'] == w.sockets[h'])
    && (forall g :: g in w.bridges && g != w.conns[h].generation ==> w'.bridges[g] == w.bridges[g])
    && w'.conns[h].generation == w.conns[h].generation && w'.conns[h].localPort == w.conns[h].localPort
    && (var b, b' := w.bridges[w.conns[h].generation], w'.bridges[w.conns[h].generation];
        b'.handle == b.handle && b'.ended == b.ended)
    && (w'.pending.Keys - {h} == w.pending.Keys - {h})
    && w'.inbox == w.inbox && w'.gone == w.gone && w'.nextPort == w.nextPort
    && w'.nextGeneration == w.nextGeneration && w'.accepts == w.accepts
  }

  lemma TouchedViews(w: World, w': World, h: Handle)
    requires Structured(w) && ViewsOk(w) && OnlyTouches(w, w', h)
    requires ViewOk(ViewOf(w', h))
    ensures ViewsOk(w')
  {
    hide ViewOk, MessagesFor;
    GenerationsDistinct(w);
    forall h' | h' in w'.conns
      ensures Bridged(w', h') && ViewOk(ViewOf(w', h'))
    {
      if h' != h {
        assert ViewOf(w', h') == ViewOf(w, h');
      }
    }
  }

  lemma GenerationsDistinct(w: World)
    requires Structured(w)
    ensures forall h1, h2 :: h1 in w.conns && h2 in w.conns && h1 != h2 ==>
              w.conns[h1].generation != w.conns[h2].generation
  {
  }

  /** What the structure of the world depends on stays as it was. */
  lemma TouchedSame(w: World, w': World, h: Handle)
    requires OnlyTouches(w, w', h)
    ensures w'.conns.Keys == w.conns.Keys && w'.sockets.Keys == w.sockets.Keys && w'.bridges.Keys == w.bridges.Keys
    ensures w'.inbox == w.inbox && w'.gone == w.gone && h in w.conns && w.conns[h].generation in w.bridges
    ensures forall k :: k in w.conns ==>
              w'.conns[k].generation == w.conns[k].generation && w'.conns[k].localPort == w.conns[k].localPort
    ensures forall g :: g in w.bridges ==>
              && w'.bridges[g].handle == w.bridges[g].handle && w'.bridges[g].ended == w.bridges[g].ended
              && (g != w.conns[h].generation ==> w'.bridges[g] == w.bridges[g])
  {
    hide Queue;
  }

  lemma TouchedPlaces(w: World, w': World, h: Handle)
    requires Structured(w) && OnlyTouches(w, w', h) && (h in w'.pending ==> w'.pending[h] != [])
    ensures w'.pending.Keys <= w.conns.Keys && forall k :: k in w'.pending ==> w'.pending[k] != []
  {
    hide PortsDistinct;
    forall k | k in w'.pending
      ensures k in w.conns && w'.pending[k] != []
    {
      if k != h {
        assert k in w.pending.Keys - {h};
        assert Queue(w', k) == Queue(w, k);
      }
    }
  }

  lemma TouchedStructure(w: World, w': World, h: Handle)
    requires Structured(w) && OnlyTouches(w, w', h) && (h in w'.pending ==> w'.pending[h] != [])
    ensures Structured(w')
  {
    hide OnlyTouches, PortsDistinct;
    TouchedPlaces(w, w', h);
    TouchedSame(w, w', h);
    assert PortsDistinct(w') by { SamePorts(w, w'); }
  }

  lemma SamePorts(w: World, w': World)
    requires PortsDistinct(w) && w'.conns.Keys == w.conns.Keys
    requires forall k :: k in w.conns ==> w'.conns[k].localPort == w.conns[k].localPort
    ensures PortsDistinct(w')
  {
  }

  lemma TouchedKeyed(w: World, w': World, h: Handle)
    requires Keyed(w) && LiveOrGone(w) && OnlyTouches(w, w', h)
    requires ChannelOk(w'.bridges[w.conns[h].generation])
    ensures Keyed(w') && LiveOrGone(w')
  {
    hide Orderly, ChannelOk, MessagesFor, OnlyTouches;
    TouchedSame(w, w', h);
  }

  lemma GoneUntouched(w: World, w': World, h: Handle)
    requires Structured(w) && AllGoneOk(w) && OnlyTouches(w, w', h)
    ensures AllGoneOk(w')
  {
    hide GoneOk;
  }

  lemma TouchedNumbers(w: World, w': World, h: Handle)
    requires Numbered(w) && OnlyTouches(w, w', h)
    ensures Numbered(w')
  {
  }

  lemma Touched(w: World, w': World, h: Handle)
    requires Inv(w) && OnlyTouches(w, w', h)
    requires ViewOk(ViewOf(w', h)) && (h in w'.pending ==> w'.pending[h] != []) && Counted(w')
    ensures Inv(w')
  {
    assert ChannelOk(w'.bridges[w.conns[h].generation]);
    hide OnlyTouches, ViewOk, Counted, Structured, Numbered, LiveOrGone, Keyed, ViewsOk, AllGoneOk, ChannelOk, Queue;
    TouchedViews(w, w', h);
    TouchedStructure(w, w', h);
    TouchedKeyed(w, w', h);
    TouchedNumbers(w, w', h);
    GoneUntouched(w, w', h);
  }

  /** How many queued bytes, and how many header bytes still to be accepted, a handle has. */
  function Queued(w: World, h: Handle): nat {
    |Flatten(Queue(w, h))|
  }

  function HeaderLeft(w: World, h: Handle): nat {
    At(HeaderBytes(w), h)
  }

  /** Counting stays exact if one handle's change is counted, and bounded if what is no longer
      queued includes the header bytes that went. */
  lemma CountedAt(w: World, w': World, h: Handle)
    requires Counted(w)
    requires w'.pending - {h} == w.pending - {h} && w'.sockets - {h} == w.sockets - {h}
    requires w'.pendingBytes + Queued(w, h) == w.pendingBytes + Queued(w', h)
    requires || w'.pendingBytes + HeaderLeft(w, h) <= w.pendingBytes + HeaderLeft(w', h)
             || w'.pendingBytes <= MAX_PENDING - 1 + BRIDGE_BUFFER
    ensures Counted(w')
  {
    QueueBytesElsewhere(w, w', h);
    SumChanged(QueueBytes(w), QueueBytes(w'), h);
    HeaderBytesElsewhere(w, w', h);
    SumChanged(HeaderBytes(w), HeaderBytes(w'), h);
  }

  lemma QueueBytesElsewhere(w: World, w': World, h: Handle)
    requires w'.pending - {h} == w.pending - {h}
    ensures QueueBytes(w) - {h} == QueueBytes(w') - {h}
    ensures At(QueueBytes(w), h) == Queued(w, h) && At(QueueBytes(w'), h) == Queued(w', h)
  {
    var a, b := QueueBytes(w) - {h}, QueueBytes(w') - {h};
    forall k | k in a || k in b
      ensures k in a && k in b && a[k] == b[k]
    {
      assert k in w.pending - {h} <==> k in w'.pending - {h};
      assert (w.pending - {h})[k] == (w'.pending - {h})[k];
    }
  }

  lemma HeaderBytesElsewhere(w: World, w': World, h: Handle)
    requires w'.sockets - {h} == w.sockets - {h}
    ensures HeaderBytes(w) - {h} == HeaderBytes(w') - {h}
  {
    var a, b := HeaderBytes(w) - {h}, HeaderBytes(w') - {h};
    forall k | k in a || k in b
      ensures k in a && k in b && a[k] == b[k]
    {
      assert k in w.sockets - {h} <==> k in w'.sockets - {h};
      assert (w.sockets - {h})[k] == (w'.sockets - {h})[k];
    }
  }

  /** No subtraction saturates: what one handle has queued is counted. */
  lemma QueuedIsCounted(w: World, h: Handle)
    requires Counted(w)
    ensures Queued(w, h) <= w.pendingBytes
  {
    SumSplit(QueueBytes(w), h);
    QueueBytesElsewhere(w, w, h);
  }

  // ---------------------------------------------------------------- the stages of a pump

  lemma FlushTouches(w: World, h: Handle)
    requires Bridged(w, h)
    ensures OnlyTouches(w, Flush(w, h), h)
  {
  }

  lemma FlushView(w: World, h: Handle)
    requires Bridged(w, h) && ViewOk(ViewOf(w, h))
    ensures Bridged(Flush(w, h), h) && ViewOk(ViewOf(Flush(w, h), h))
  {
    hide ViewOk, Flatten, Drop, MessagesFor;
    if h in w.pending {
      var q := w.pending[h];
      var n := Accepted(w.sockets[h], q);
      FlushedView(ViewOf(w, h), n);
      assert ViewOf(Flush(w, h), h) == Flushed(ViewOf(w, h), n);
    }
  }

  function Flushed(v: View, n: nat): View
    requires n <= |Flatten(v.queue)| && n <= v.socket.room
  {
    v.(queue := Drop(v.queue, n),
       socket := v.socket.(sent := v.socket.sent + Flatten(v.queue)[..n], room := v.socket.room - n))
  }

  lemma FlushedView(v: View, n: nat)
    requires ViewOk(v) && n <= |Flatten(v.queue)| && n <= v.socket.room
    ensures ViewOk(Flushed(v, n))
  {
    hide Delivered, Orderly, ChannelOk, Flatten, Drop, InFlight, Stream, NoData, Told;
    assert Delivered(v.bridge.handed, Flushed(v, n).socket) by { SameDelivered(v.bridge.handed, v.socket, Flushed(v, n).socket); }
    DropFlattens(v.queue, n);
    Halves(Flatten(v.queue), n);
    Associative(v.socket.sent, Flatten(v.queue)[..n], Flatten(v.queue)[n..]);
    if v.queue == [] {
      Unfolds(v.queue, n);
    }
  }

  lemma SameDelivered(handed: seq<BridgeMsg>, s: Socket, s': Socket)
    requires Delivered(handed, s) && s' == s.(sent := s'.sent, room := s'.room)
    ensures Delivered(handed, s')
  {
    hide Chunks;
  }

  lemma FlushCounted(w: World, h: Handle)
    requires Bridged(w, h) && Counted(w) && NoEmptyChunk(Queue(w, h))
    ensures Counted(Flush(w, h))
  {
    if h in w.pending {
      var w' := Flush(w, h);
      var n := Accepted(w.sockets[h], w.pending[h]);
      DropFlattens(w.pending[h], n);
      QueuedIsCounted(w, h);
      assert w'.pendingBytes == w.pendingBytes - n;
      hide Counted, Flatten, Accepted;
      CountedAt(w, w', h);
    }
  }

  lemma LiveView(w: World, h: Handle)
    requires Inv(w) && h in w.conns
    ensures Bridged(w, h) && ViewOk(ViewOf(w, h)) && Counted(w)
  {
  }

  lemma FlushKeeps(w: World, h: Handle)
    requires Inv(w) && h in w.conns
    ensures Inv(Flush(w, h)) && OnlyTouches(w, Flush(w, h), h)
  {
    LiveView(w, h);
    FlushTouches(w, h);
    FlushView(w, h);
    FlushPending(w, h);
    assert NoEmptyChunk(Queue(w, h));
    FlushCounted(w, h);
    hide Inv, ViewOk, Counted, OnlyTouches, Flush, ViewOf, Queue, NoEmptyChunk;
    Touched(w, Flush(w, h), h);
  }

  lemma FlushPending(w: World, h: Handle)
    requires Bridged(w, h)
    ensures h in Flush(w, h).pending ==> Flush(w, h).pending[h] != []
  {
  }

  lemma CloseFlushedTouches(w: World, h: Handle)
    requires Bridged(w, h)
    ensures var w' := CloseFlushed(w, h);
            && OnlyTouches(w, w', h) && w'.pending == w.pending && w'.pendingBytes == w.pendingBytes
            && (forall h' :: h' in w.sockets ==> w'.sockets[h'].sent == w.sockets[h'].sent)
  {
  }

  lemma CloseFlushedView(w: World, h: Handle)
    requires Bridged(w, h) && ViewOk(ViewOf(w, h))
    ensures Bridged(CloseFlushed(w, h), h) && ViewOk(ViewOf(CloseFlushed(w, h), h))
  {
    hide Orderly, ChannelOk, NoData, NoEmptyChunk, Told, Flatten, InFlight, MessagesFor, Stream;
    var v, v' := ViewOf(w, h), ViewOf(CloseFlushed(w, h), h);
    assert v' == v.(conn := v'.conn, socket := v'.socket);
    if CloseFlushed(w, h) != w {
      assert v'.socket == v.socket.Closing(ByMessage) && v.queue == [];
      assert v'.conn == v.conn.(closeAfterFlush := false);
    }
    hide CloseFlushed, ViewOf;
  }

  lemma CloseFlushedKeeps(w: World, h: Handle)
    requires Inv(w) && h in w.conns
    ensures Inv(CloseFlushed(w, h)) && OnlyTouches(w, CloseFlushed(w, h), h)
  {
    LiveView(w, h);
    CloseFlushedTouches(w, h);
    CloseFlushedView(w, h);
    StageKeeps(w, CloseFlushed(w, h), h);
  }

  /** A stage that leaves queues and accepted bytes alone. */
  lemma StageKeeps(w: World, w': World, h: Handle)
    requires Inv(w) && h in w.conns && OnlyTouches(w, w', h)
    requires w'.pending == w.pending && w'.pendingBytes == w.pendingBytes
    requires forall h' :: h' in w.sockets ==> w'.sockets[h'].sent == w.sockets[h'].sent
    requires ViewOk(ViewOf(w', h))
    ensures Inv(w')
  {
    LiveView(w, h);
    QueueNotEmpty(w, h);
    hide Inv, ViewOk, OnlyTouches, Counted, ViewOf;
    assert w'.sockets.Keys == w.sockets.Keys by { SameSockets(w, w', h); }
    CountedUnchanged(w, w');
    Touched(w, w', h);
  }

  lemma SameSockets(w: World, w': World, h: Handle)
    requires OnlyTouches(w, w', h)
    ensures w'.sockets.Keys == w.sockets.Keys
  {
  }

  lemma QueueNotEmpty(w: World, h: Handle)
    requires Inv(w)
    ensures h in w.pending ==> w.pending[h] != []
  {
  }

  lemma CountedUnchanged(w: World, w': World)
    requires Counted(w) && w'.pending == w.pending && w'.pendingBytes == w.pendingBytes
    requires w'.sockets.Keys == w.sockets.Keys
    requires forall h :: h in w.sockets ==> w'.sockets[h].sent == w.sockets[h].sent
    ensures Counted(w')
  {
    assert HeaderBytes(w') == HeaderBytes(w);
    assert QueueBytes(w') == QueueBytes(w);
  }

  /** What handing over changes: only how much was taken, and the channel. */
  predicate HandsOver(s: Socket, b: Bridge, s': Socket, b': Bridge) {
    && Delivered(b'.handed, s') && ChannelOk(b') && (Told(b'.handed) <==> Told(b.handed))
    && s' == s.(taken := s'.taken) && b' == b.(channel := b'.channel, handed := b'.handed)
  }

  lemma HandsOverOne(s: Socket, b: Bridge, n: nat)
    requires Delivered(b.handed, s) && ChannelOk(b) && HasSpace(b) && 0 < n <= |s.Rx()|
    ensures HandsOver(s, b, s.(taken := s.taken + n), Push(b, Chunk(s.Rx()[..n])))
  {
    hide ChannelOk, Delivered, Socket.Rx;
    TakenDelivered(b.handed, s, n);
    PushedOk(b, Chunk(s.Rx()[..n]));
  }

  lemma TakenDelivered(handed: seq<BridgeMsg>, s: Socket, n: nat)
    requires Delivered(handed, s) && 0 < n <= |s.Rx()|
    ensures var handed' := handed + [Chunk(s.Rx()[..n])];
            Delivered(handed', s.(taken := s.taken + n)) && !Told(handed') && !Told(handed)
  {
    hide Chunks;
    ChunksPush(handed, Chunk(s.Rx()[..n]));
    NextPart(s.received, s.taken, n);
  }

  /** One round of the handing over. */
  lemma HandOverUnfolds(s: Socket, b: Bridge)
    ensures var n := Min(PUMP_BUFFER, |s.Rx()|);
            HandOver(s, b) == if !HasSpace(b) || n == 0 then (s, b)
                              else HandOver(s.(taken := s.taken + n), Push(b, Chunk(s.Rx()[..n])))
  {
  }

  lemma TakingLeavesLess(s: Socket, n: nat)
    requires 0 < n <= |s.Rx()|
    ensures |s.(taken := s.taken + n).Rx()| < |s.Rx()|
  {
  }

  lemma PushedOk(b: Bridge, m: BridgeMsg)
    requires ChannelOk(b) && HasSpace(b)
    ensures ChannelOk(Push(b, m))
  {
    var k := |b.handed| - |b.channel|;
    TailPush(b.handed, k, m);
  }

  lemma TailPush(handed: seq<BridgeMsg>, k: nat, m: BridgeMsg)
    requires k <= |handed|
    ensures (handed + [m])[k..] == handed[k..] + [m]
  {
  }

  lemma {:induction false} HandOverDelivers(s: Socket, b: Bridge)
    requires Delivered(b.handed, s) && ChannelOk(b)
    ensures HandsOver(s, b, HandOver(s, b).0, HandOver(s, b).1)
    decreases |s.Rx()|
  {
    hide Delivered, ChannelOk, HandOver, Push, Socket.Rx, Told, HasSpace;
    HandOverUnfolds(s, b);
    var n := Min(PUMP_BUFFER, |s.Rx()|);
    if HasSpace(b) && n != 0 {
      HandsOverOne(s, b, n);
      TakingLeavesLess(s, n);
      var s1, b1 := s.(taken := s.taken + n), Push(b, Chunk(s.Rx()[..n]));
      DeliveredAfter(s, b, s1, b1);
      HandOverDelivers(s1, b1);
      HandsOverBoth(s, b, s1, b1, HandOver(s1, b1).0, HandOver(s1, b1).1);
    }
  }

  lemma DeliveredAfter(s: Socket, b: Bridge, s': Socket, b': Bridge)
    requires HandsOver(s, b, s', b')
    ensures Delivered(b'.handed, s') && ChannelOk(b')
  {
  }

  lemma HandsOverBoth(s: Socket, b: Bridge, s1: Socket, b1: Bridge, s2: Socket, b2: Bridge)
    requires HandsOver(s, b, s1, b1) && HandsOver(s1, b1, s2, b2)
    ensures HandsOver(s, b, s2, b2)
  {
    hide Delivered, ChannelOk, Told;
  }

  lemma ReceiveTouches(w: World, h: Handle)
    requires Bridged(w, h)
    requires HandsOver(w.sockets[h], w.bridges[w.conns[h].generation],
                       HandOver(w.sockets[h], w.bridges[w.conns[h].generation]).0,
                       HandOver(w.sockets[h], w.bridges[w.conns[h].generation]).1)
    ensures var w' := Receive(w, h);
            && OnlyTouches(w, w', h) && w'.pending == w.pending && w'.pendingBytes == w.pendingBytes
            && (forall h' :: h' in w.sockets ==> w'.sockets[h'].sent == w.sockets[h'].sent)
  {
    hide HandOver, Delivered, ChannelOk, Told;
  }

  lemma ReceiveView(w: World, h: Handle)
    requires Bridged(w, h) && ViewOk(ViewOf(w, h))
    requires HandsOver(w.sockets[h], w.bridges[w.conns[h].generation],
                       HandOver(w.sockets[h], w.bridges[w.conns[h].generation]).0,
                       HandOver(w.sockets[h], w.bridges[w.conns[h].generation]).1)
    ensures Bridged(Receive(w, h), h) && ViewOk(ViewOf(Receive(w, h), h))
  {
    hide HandOver, Delivered, ChannelOk, Orderly, NoData, Told, NoEmptyChunk, Flatten, InFlight, MessagesFor;
    var v, v' := ViewOf(w, h), ViewOf(Receive(w, h), h);
    assert v' == v.(socket := v'.socket, bridge := v'.bridge);
  }

  lemma ReceiveKeeps(w: World, h: Handle)
    requires Inv(w) && h in w.conns
    ensures Inv(Receive(w, h)) && OnlyTouches(w, Receive(w, h), h)
  {
    LiveView(w, h);
    HandOverDelivers(w.sockets[h], w.bridges[w.conns[h].generation]);
    hide Inv, HandOver, HandsOver, Delivered, ChannelOk, Orderly, NoData, NoEmptyChunk;
    ReceiveTouches(w, h);
    ReceiveView(w, h);
    StageKeeps(w, Receive(w, h), h);
  }

  lemma TellEofTouches(w: World, h: Handle)
    requires Bridged(w, h)
    ensures var w' := TellEof(w, h);
            && OnlyTouches(w, w', h) && w'.pending == w.pending && w'.pendingBytes == w.pendingBytes
            && (forall h' :: h' in w.sockets ==> w'.sockets[h'].sent == w.sockets[h'].sent)
  {
    hide Finished;
  }

  lemma AbruptView(v: View)
    requires ViewOk(v)
    ensures ViewOk(v.(socket := v.socket.Closing(Abrupt)))
  {
    hide Orderly, NoData, NoEmptyChunk, Chunks, Flatten, InFlight, ChannelOk, Told;
  }

  lemma TellEofView(w: World, h: Handle)
    requires Bridged(w, h) && ViewOk(ViewOf(w, h))
    ensures Bridged(TellEof(w, h), h) && ViewOk(ViewOf(TellEof(w, h), h))
  {
    hide Orderly, NoData, NoEmptyChunk, Chunks, Flatten, InFlight, MessagesFor, Delivered, ChannelOk, Told;
    var v, v' := ViewOf(w, h), ViewOf(TellEof(w, h), h);
    EofTold(v.bridge, v.socket);
    AbruptView(v);
    if v'.bridge != v.bridge {
      assert v' == v.(conn := v.conn.(peerEofSent := true), bridge := Push(v.bridge, PeerEof));
    } else {
      assert v' == v || v' == v.(socket := v.socket.Closing(Abrupt));
    }
  }

  /** Telling the end of file keeps a delivery in order: everything was handed over before. */
  lemma EofTold(b: Bridge, s: Socket)
    requires Delivered(b.handed, s) && ChannelOk(b)
    ensures var b' := Push(b, PeerEof);
            && Told(b'.handed)
            && (HasSpace(b) ==> ChannelOk(b'))
            && (s.AtPeerEof() && !Told(b.handed) ==> Delivered(b'.handed, s))
  {
    ChunksPush(b.handed, PeerEof);
  }

  lemma TellEofKeeps(w: World, h: Handle)
    requires Inv(w) && h in w.conns
    ensures Inv(TellEof(w, h)) && OnlyTouches(w, TellEof(w, h), h)
  {
    LiveView(w, h);
    TellEofTouches(w, h);
    TellEofView(w, h);
    StageKeeps(w, TellEof(w, h), h);
  }

  lemma PumpOneKeeps(w: World, h: Handle)
    requires Inv(w) && h in w.conns
    ensures Inv(PumpOne(w, h)) && PumpOne(w, h).conns.Keys == w.conns.Keys
  {
    LiveView(w, h);
    FlushKeeps(w, h);
    var w1 := Flush(w, h);
    CloseFlushedKeeps(w1, h);
    var w2 := CloseFlushed(w1, h);
    ReceiveKeeps(w2, h);
    var w3 := Receive(w2, h);
    TellEofKeeps(w3, h);
    hide Inv, Flush, CloseFlushed, Receive, TellEof;
  }

  lemma {:induction false} PumpFirstKeeps(w: World, order: seq<Handle>, k: nat)
    requires Inv(w) && k <= |order| && forall i :: 0 <= i < |order| ==> order[i] in w.conns
    ensures Inv(PumpFirst(w, order, k).0) && PumpFirst(w, order, k).0.conns.Keys == w.conns.Keys
  {
    hide Inv, PumpOne, BeforeEof;
    if k > 0 {
      PumpFirstKeeps(w, order, k - 1);
      PumpOneKeeps(PumpFirst(w, order, k - 1).0, order[k - 1]);
    }
  }

  // ---------------------------------------------------------------- removing what is over

  lemma RemoveKeeps(w: World, h: Handle)
    requires Inv(w)
    ensures Inv(Remove(w, h))
  {
    if h in w.conns && h in w.sockets {
      LiveView(w, h);
      RemoveCounted(w, h);
      RemoveViews(w, h);
      RemoveStructure(w, h);
      RemoveNumbers(w, h);
      RemoveGone(w, h);
      hide Remove, Counted, ViewsOk, Structured, AllGoneOk, Keyed;
      assert Keyed(Remove(w, h)) by { RemoveKeyed(w, h); }
    }
  }

  lemma RemoveKeyed(w: World, h: Handle)
    requires Keyed(w)
    ensures Keyed(Remove(w, h))
  {
    hide Orderly, ChannelOk;
  }

  lemma RemoveStructure(w: World, h: Handle)
    requires Structured(w) && h in w.conns
    ensures Structured(Remove(w, h))
  {
    GenerationsDistinct(w);
  }

  lemma RemoveNumbers(w: World, h: Handle)
    requires Structured(w) && Numbered(w) && LiveOrGone(w) && h in w.conns
    ensures Numbered(Remove(w, h)) && LiveOrGone(Remove(w, h))
  {
    hide PortsDistinct;
  }

  lemma RemoveViews(w: World, h: Handle)
    requires ViewsOk(w)
    ensures ViewsOk(Remove(w, h))
  {
    hide ViewOk, MessagesFor;
    var w' := Remove(w, h);
    forall h' | h' in w'.conns
      ensures Bridged(w', h') && ViewOk(ViewOf(w', h'))
    {
      if h' != h {
        assert ViewOf(w', h') == ViewOf(w, h');
      }
    }
  }

  lemma ViewMeansGoneOk(v: View)
    requires ViewOk(v)
    ensures GoneOk(v.bridge, v.socket)
  {
    if v.socket.closedBy == Some(ByMessage) {
      NothingInFlight(v.msgs);
    }
  }

  lemma RemoveGone(w: World, h: Handle)
    requires AllGoneOk(w) && ViewsOk(w)
    ensures AllGoneOk(Remove(w, h))
  {
    if h in w.conns {
      assert ViewOk(ViewOf(w, h));
      ViewMeansGoneOk(ViewOf(w, h));
    }
    hide GoneOk, ViewOk;
  }

  lemma RemoveCounted(w: World, h: Handle)
    requires Counted(w) && h in w.conns && h in w.sockets && |w.sockets[h].sent| + Queued(w, h) >= 2
    ensures Counted(Remove(w, h))
  {
    QueuedIsCounted(w, h);
    hide Counted;
    CountedAt(w, Remove(w, h), h);
  }

  lemma {:induction false} RemoveFirstKeeps(w: World, reap: seq<Handle>, k: nat)
    requires Inv(w) && k <= |reap|
    ensures Inv(RemoveFirst(w, reap, k))
  {
    hide Inv, Remove;
    if k > 0 {
      RemoveFirstKeeps(w, reap, k - 1);
      RemoveKeeps(RemoveFirst(w, reap, k - 1), reap[k - 1]);
    }
  }

  lemma PumpKeeps(w: World, order: seq<Handle>)
    requires Inv(w) && Lists(order, w.conns.Keys)
    ensures Inv(Pump(w, order))
  {
    hide Inv, PumpFirst, RemoveFirst;
    PumpFirstKeeps(w, order, |order|);
    var (w1, reap) := PumpFirst(w, order, |order|);
    RemoveFirstKeeps(w1, reap, |reap|);
  }

  // ---------------------------------------------------------------- the network side

  lemma SocketTouches(w: World, h: Handle, s: Socket)
    requires Bridged(w, h)
    ensures OnlyTouches(w, SetSocket(w, h, s), h)
  {
  }

  /** What the network may do to a socket: bytes arrive until the FIN did, room comes and goes,
      and the connection may end. */
  predicate NetworkMoves(s: Socket, s': Socket) {
    && s'.sent == s.sent && s'.closedBy == s.closedBy && s'.taken == s.taken
    && s.received <= s'.received
    && (s.fin ==> s'.fin && s'.received == s.received)
  }

  lemma SocketView(v: View, s: Socket)
    requires ViewOk(v) && NetworkMoves(v.socket, s)
    ensures ViewOk(v.(socket := s))
  {
    assert s.received[..s.taken] == v.socket.received[..s.taken];
    hide Orderly, Flatten, InFlight, ChannelOk, NoEmptyChunk, Chunks, NoData;
  }

  lemma SocketSeen(w: World, h: Handle, s: Socket)
    requires Bridged(w, h)
    ensures Bridged(SetSocket(w, h, s), h) && ViewOf(SetSocket(w, h, s), h) == ViewOf(w, h).(socket := s)
  {
  }

  lemma SocketKeeps(w: World, h: Handle, s: Socket)
    requires Inv(w) && h in w.conns && Bridged(w, h) && NetworkMoves(w.sockets[h], s)
    ensures Inv(SetSocket(w, h, s))
  {
    hide Inv, ViewOk, OnlyTouches, Counted, MessagesFor;
    LiveView(w, h);
    SocketTouches(w, h, s);
    SocketView(ViewOf(w, h), s);
    SocketSeen(w, h, s);
    StageKeeps(w, SetSocket(w, h, s), h);
  }

  // ---------------------------------------------------------------- the bridge tasks

  function Letters(key: Key, bodies: seq<StackMsg>): seq<Message> {
    seq(|bodies|, i requires 0 <= i < |bodies| => Message(key, bodies[i]))
  }

  /** A bridge task moves on and possibly sends one message. */
  function Speak(w: World, g: u64, b: Bridge, bodies: seq<StackMsg>): World {
    w.(bridges := w.bridges[g := b], inbox := w.inbox + Letters(Key(b.handle, g), bodies))
  }

  /** What a task may do: send what it read, or signal a close, and take from its channel. */
  predicate MaySpeak(b: Bridge, b': Bridge, bodies: seq<StackMsg>) {
    && b'.handle == b.handle && b'.port == b.port && b'.handed == b.handed && ChannelOk(b')
    && (b.ended ==> b'.ended)
    && match |bodies|
       case 0 => b'.produced == b.produced && b'.ended == b.ended
       case 1 =>
         if bodies[0].Data? then
           !b.ended && b'.ended == b.ended && 0 < |bodies[0].bytes| <= BRIDGE_BUFFER
           && b'.produced == b.produced + bodies[0].bytes
         else b'.produced == b.produced && b'.ended
       case _ => false
  }

  lemma SpokenMessages(inbox: seq<Message>, key: Key, bodies: seq<StackMsg>, k: Key)
    requires |bodies| <= 1
    ensures MessagesFor(inbox + Letters(key, bodies), k)
            == if k == key then MessagesFor(inbox, k) + bodies else MessagesFor(inbox, k)
  {
    if bodies == [] {
      assert inbox + Letters(key, bodies) == inbox;
    } else {
      assert Letters(key, bodies) == [Message(key, bodies[0])];
      MessagesAppend(inbox, Message(key, bodies[0]), k);
      assert bodies == [bodies[0]];
      assert MessagesFor(inbox, k) + [] == MessagesFor(inbox, k);
    }
  }

  lemma SpokenOrderly(b: Bridge, b': Bridge, msgs: seq<StackMsg>, bodies: seq<StackMsg>)
    requires MaySpeak(b, b', bodies) && Orderly(b.ended, msgs)
    ensures Orderly(b'.ended, msgs + bodies)
  {
  }

  lemma SpokenView(v: View, b': Bridge, bodies: seq<StackMsg>)
    requires ViewOk(v) && MaySpeak(v.bridge, b', bodies)
    ensures ViewOk(v.(bridge := b', msgs := v.msgs + bodies))
  {
    hide Orderly, Delivered, Flatten, InFlight, ChannelOk, Told, NoEmptyChunk, Stream, NoData;
    SpokenOrderly(v.bridge, b', v.msgs, bodies);
    var more := if bodies == [] then [] else if bodies[0].Data? then bodies[0].bytes else [];
    SpokenInFlight(v.msgs, bodies);
    SpokenStream(v.bridge, b', bodies);
    Associative(v.socket.sent + Flatten(v.queue), InFlight(v.msgs), more);
    if CloseHandled(v) {
      SpokenNoData(v.bridge, b', v.msgs, bodies);
    }
  }

  lemma SpokenInFlight(msgs: seq<StackMsg>, bodies: seq<StackMsg>)
    requires |bodies| <= 1
    ensures InFlight(msgs + bodies)
            == InFlight(msgs) + (if bodies == [] then [] else if bodies[0].Data? then bodies[0].bytes else [])
  {
    hide InFlight;
    if bodies == [] {
      assert msgs + bodies == msgs && InFlight(msgs) + [] == InFlight(msgs);
    } else {
      assert bodies == [bodies[0]];
      InFlightAppend(msgs, bodies[0]);
    }
  }

  lemma SpokenStream(b: Bridge, b': Bridge, bodies: seq<StackMsg>)
    requires MaySpeak(b, b', bodies)
    ensures Stream(b')
            == Stream(b) + (if bodies == [] then [] else if bodies[0].Data? then bodies[0].bytes else [])
  {
    hide ChannelOk;
    if bodies != [] && bodies[0].Data? {
      Associative(Header(b.port), b.produced, bodies[0].bytes);
    }
  }

  lemma SpokenNoData(b: Bridge, b': Bridge, msgs: seq<StackMsg>, bodies: seq<StackMsg>)
    requires MaySpeak(b, b', bodies) && b.ended && NoData(msgs)
    ensures NoData(msgs + bodies)
  {
    hide ChannelOk;
  }

  lemma SpokenViews(w: World, g: u64, b': Bridge, bodies: seq<StackMsg>)
    requires Structured(w) && ViewsOk(w) && g in w.bridges && MaySpeak(w.bridges[g], b', bodies)
    ensures ViewsOk(Speak(w, g, b', bodies))
  {
    hide ViewOk, MessagesFor, Letters, ChannelOk;
    var w' := Speak(w, g, b', bodies);
    var key := Key(b'.handle, g);
    forall h | h in w'.conns
      ensures Bridged(w', h) && ViewOk(ViewOf(w', h))
    {
      SpokenMessages(w.inbox, key, bodies, Key(h, w.conns[h].generation));
      if w.conns[h].generation == g {
        SpokenView(ViewOf(w, h), b', bodies);
        assert ViewOf(w', h) == ViewOf(w, h).(bridge := b', msgs := ViewOf(w, h).msgs + bodies);
      } else {
        assert ViewOf(w', h) == ViewOf(w, h);
      }
    }
  }

  lemma SpokenGone(w: World, g: u64, b': Bridge, bodies: seq<StackMsg>)
    requires AllGoneOk(w) && g in w.bridges && MaySpeak(w.bridges[g], b', bodies)
    ensures AllGoneOk(Speak(w, g, b', bodies))
  {
    hide ChannelOk, Delivered;
  }

  lemma SpokenKeyed(w: World, g: u64, b': Bridge, bodies: seq<StackMsg>)
    requires Keyed(w) && g in w.bridges && MaySpeak(w.bridges[g], b', bodies)
    ensures Keyed(Speak(w, g, b', bodies))
  {
    hide ChannelOk, Orderly, MessagesFor;
    var w' := Speak(w, g, b', bodies);
    var key := Key(b'.handle, g);
    SpokenOrderly(w.bridges[g], b', MessagesFor(w.inbox, key), bodies);
    forall g' | g' in w'.bridges
      ensures Orderly(w'.bridges[g'].ended, MessagesFor(w'.inbox, Key(w'.bridges[g'].handle, g')))
              && ChannelOk(w'.bridges[g'])
    {
      SpokenMessages(w.inbox, key, bodies, Key(w'.bridges[g'].handle, g'));
    }
  }

  lemma SpeakKeeps(w: World, g: u64, b': Bridge, bodies: seq<StackMsg>)
    requires Inv(w) && g in w.bridges && MaySpeak(w.bridges[g], b', bodies)
    ensures Inv(Speak(w, g, b', bodies))
  {
    SpokenViews(w, g, b', bodies);
    SpokenGone(w, g, b', bodies);
    SpokenKeyed(w, g, b', bodies);
    CountedUnchanged(w, Speak(w, g, b', bodies));
    hide ViewsOk, AllGoneOk, Keyed, Counted, Letters, ChannelOk;
    SpokenStructure(w, g, b', bodies);
  }

  lemma SpokenStructure(w: World, g: u64, b': Bridge, bodies: seq<StackMsg>)
    requires Structured(w) && Numbered(w) && LiveOrGone(w) && g in w.bridges
    requires b'.handle == w.bridges[g].handle
    ensures var w' := Speak(w, g, b', bodies); Structured(w') && Numbered(w') && LiveOrGone(w')
  {
  }

  // ---------------------------------------------------------------- accepting

  lemma {:induction false} NoMessages(inbox: seq<Message>, key: Key)
    requires forall i :: 0 <= i < |inbox| ==> inbox[i].key != key
    ensures MessagesFor(inbox, key) == []
  {
    if inbox != [] {
      NoMessages(inbox[1..], key);
    }
  }

  lemma AllocatedFresh(w: World)
    requires Ports.InRange(w.nextPort)
    ensures var (next, port) := Ports.Allocated(w.nextPort, UsedPorts(w));
            && Ports.InRange(next)
            && (port.Some? ==>
                  Ports.InRange(port.value) && forall h :: h in w.conns ==> w.conns[h].localPort != port.value)
  {
    Ports.AllocatedMeans(w.nextPort, UsedPorts(w));
    assert forall h :: h in w.conns ==> w.conns[h].localPort in UsedPorts(w);
  }

  /** A new connection under a fresh handle, generation and port joins the structure. */
  lemma JoinedStructure(w: World, w': World, h: Handle)
    requires Structured(w) && h !in w.conns && h in w'.conns
    requires w'.conns == w.conns[h := w'.conns[h]] && w'.sockets == w.sockets[h := NEW_SOCKET]
    requires var c := w'.conns[h];
             && c.generation !in w.bridges && c.generation !in w.gone && Ports.InRange(c.localPort)
             && c.generation in w'.bridges && w'.bridges[c.generation].handle == h
             && w'.bridges == w.bridges[c.generation := w'.bridges[c.generation]]
             && (forall h' :: h' in w.conns ==> w.conns[h'].localPort != c.localPort)
    requires w'.gone == w.gone && h in w'.pending && w'.pending[h] != []
    requires w'.pending == w.pending[h := w'.pending[h]]
    ensures Structured(w')
  {
    assert PortsDistinct(w') by { JoinedPorts(w, w', h); }
    hide PortsDistinct;
  }

  lemma JoinedPorts(w: World, w': World, h: Handle)
    requires PortsDistinct(w) && h in w'.conns && w'.conns == w.conns[h := w'.conns[h]]
    requires forall h' :: h' in w.conns ==> w.conns[h'].localPort != w'.conns[h].localPort
    ensures PortsDistinct(w')
  {
  }

  lemma AcceptStructure(w: World, h: Handle, forward: (u16, u16))
    requires Structured(w) && Numbered(w) && LiveOrGone(w) && h !in w.sockets && w.accepts < MAX_GENERATION
    ensures Structured(Accept(w, h, forward))
  {
    hide Structured, LiveOrGone, Ports.Allocated, UsedPorts;
    AllocatedFresh(w);
    FreshGeneration(w, h);
    var w' := Accept(w, h, forward);
    if w'.accepts != w.accepts {
      assert Ports.Allocated(w.nextPort, UsedPorts(w)).1 == Some(w'.conns[h].localPort);
      JoinedStructure(w, w', h);
    } else {
      assert SameSkeleton(w, w'.(nextPort := w.nextPort));
      PendingOk(w);
      SkeletonKeeps(w, w'.(nextPort := w.nextPort));
      assert Structured(w') by { PortIrrelevant(w', w.nextPort); }
    }
  }

  lemma PortIrrelevant(w: World, port: u16)
    requires Structured(w.(nextPort := port))
    ensures Structured(w)
  {
  }

  lemma FreshGeneration(w: World, h: Handle)
    requires Structured(w) && Numbered(w) && LiveOrGone(w) && h !in w.sockets && w.accepts < MAX_GENERATION
    ensures h !in w.conns && w.nextGeneration !in w.bridges && w.nextGeneration !in w.gone
    ensures w.nextGeneration == w.accepts + 1
  {
  }

  lemma AcceptNumbers(w: World, h: Handle, forward: (u16, u16))
    requires Numbered(w) && LiveOrGone(w) && h !in w.conns && w.accepts < MAX_GENERATION
    ensures var w' := Accept(w, h, forward); Numbered(w') && LiveOrGone(w')
  {
    hide Ports.Allocated, UsedPorts, Queue;
    AllocatedFresh(w);
    var w' := Accept(w, h, forward);
    if w'.accepts != w.accepts {
      assert w'.bridges == w.bridges[w.nextGeneration := w'.bridges[w.nextGeneration]];
      assert w'.conns == w.conns[h := w'.conns[h]];
    }
  }

  lemma AcceptCounted(w: World, h: Handle, forward: (u16, u16))
    requires Counted(w) && Ports.InRange(w.nextPort) && h !in w.sockets && h !in w.pending
    ensures Counted(Accept(w, h, forward))
  {
    var w' := Accept(w, h, forward);
    hide Ports.Allocated, Ports.InRange;
    if w'.accepts != w.accepts {
      assert Queue(w', h) == [Header(forward.1)];
      assert Flatten([Header(forward.1)]) == Header(forward.1);
      CountedAt(w, w', h);
    } else {
      CountedUnchanged(w, w');
    }
  }

  lemma AcceptViews(w: World, h: Handle, forward: (u16, u16))
    requires Structured(w) && Numbered(w) && ViewsOk(w) && Keyed(w) && h !in w.sockets && w.accepts < MAX_GENERATION
    ensures ViewsOk(Accept(w, h, forward))
  {
    hide ViewOk, MessagesFor, Ports.Allocated, UsedPorts, Orderly, ChannelOk;
    var w' := Accept(w, h, forward);
    var g := w.nextGeneration;
    NoMessages(w.inbox, Key(h, g));
    forall h' | h' in w'.conns
      ensures Bridged(w', h') && ViewOk(ViewOf(w', h'))
    {
      if h' == h {
        var v := ViewOf(w', h);
        assert v.queue == [Header(forward.1)];
        NewView(v.conn, forward.1, h);
      } else {
        assert ViewOf(w', h') == ViewOf(w, h');
      }
    }
  }

  lemma NewView(c: Conn, port: u16, h: Handle)
    requires !c.closeAfterFlush && !c.peerEofSent
    ensures ViewOk(View(c, [Header(port)], NEW_SOCKET, Bridge(h, port, [], false, false, [], []), []))
  {
    assert Flatten([Header(port)]) == Header(port);
  }

  lemma AcceptKeyed(w: World, h: Handle, forward: (u16, u16))
    requires Keyed(w) && w.nextGeneration !in w.bridges && Ports.InRange(w.nextPort)
    ensures Keyed(Accept(w, h, forward))
  {
    hide Ports.Allocated, UsedPorts, MessagesFor, Queue, Orderly, ChannelOk;
    NoMessages(w.inbox, Key(h, w.nextGeneration));
    NewBridgeOk(h, forward.1);
    var w' := Accept(w, h, forward);
    assert w'.bridges == w.bridges
        || w'.bridges == w.bridges[w.nextGeneration := Bridge(h, forward.1, [], false, false, [], [])];
  }

  lemma NewBridgeOk(h: Handle, port: u16)
    ensures ChannelOk(Bridge(h, port, [], false, false, [], [])) && Orderly(false, [])
  {
  }

  lemma AcceptGone(w: World, h: Handle, forward: (u16, u16))
    requires AllGoneOk(w) && Numbered(w) && w.accepts < MAX_GENERATION
    ensures AllGoneOk(Accept(w, h, forward))
  {
    hide Ports.Allocated, UsedPorts, GoneOk;
  }

  lemma AcceptKeeps(w: World, h: Handle, forward: (u16, u16))
    requires Inv(w) && h !in w.sockets && w.accepts < MAX_GENERATION
    ensures Inv(Accept(w, h, forward))
  {
    hide ViewsOk, AllGoneOk, Keyed, Counted, Accept, LiveOrGone;
    assert h !in w.pending;
    FreshGeneration(w, h);
    AcceptStructure(w, h, forward);
    AcceptNumbers(w, h, forward);
    AcceptCounted(w, h, forward);
    AcceptViews(w, h, forward);
    AcceptKeyed(w, h, forward);
    AcceptGone(w, h, forward);
  }

  // ---------------------------------------------------------------- messages toward the stack

  lemma OrderlyTail(ended: bool, msgs: seq<StackMsg>)
    requires Orderly(ended, msgs) && msgs != []
    ensures Orderly(ended, msgs[1..])
    ensures msgs[0].Close? ==> ended && NoData(msgs[1..])
  {
  }

  lemma DataQueued(v: View)
    requires ViewOk(v) && v.msgs != [] && v.msgs[0].Data?
    ensures ViewOk(v.(queue := v.queue + [v.msgs[0].bytes], msgs := v.msgs[1..]))
  {
    hide Orderly, Delivered, Flatten, InFlight, ChannelOk, Told, Stream, NoEmptyChunk, NoData;
    var bytes, rest := v.msgs[0].bytes, v.msgs[1..];
    OrderlyTail(v.bridge.ended, v.msgs);
    FlattenAppend(v.queue, bytes);
    FirstInFlight(v.bridge.ended, v.msgs);
    Associative(v.socket.sent, Flatten(v.queue), bytes);
    Associative(v.socket.sent + Flatten(v.queue), bytes, InFlight(rest));
    OneChunkMore(v.queue, bytes);
    NotHandled(v);
  }

  lemma FirstInFlight(ended: bool, msgs: seq<StackMsg>)
    requires Orderly(ended, msgs) && msgs != [] && msgs[0].Data?
    ensures InFlight(msgs) == msgs[0].bytes + InFlight(msgs[1..]) && msgs[0].bytes != []
  {
  }

  lemma OneChunkMore(q: seq<seq<byte>>, bytes: seq<byte>)
    requires NoEmptyChunk(q) && bytes != []
    ensures NoEmptyChunk(q + [bytes])
  {
  }

  lemma NotHandled(v: View)
    requires ViewOk(v) && v.msgs != [] && v.msgs[0].Data?
    ensures !CloseHandled(v)
  {
    hide Orderly, Delivered, Flatten, InFlight, ChannelOk;
  }

  lemma CloseQueued(v: View)
    requires ViewOk(v) && v.msgs != [] && v.msgs[0].Close?
    ensures ViewOk(v.(conn := v.conn.(closeAfterFlush := true), msgs := v.msgs[1..]))
    ensures v.queue == [] ==> ViewOk(v.(socket := v.socket.Closing(ByMessage), msgs := v.msgs[1..]))
  {
    OrderlyTail(v.bridge.ended, v.msgs);
    assert InFlight(v.msgs) == InFlight(v.msgs[1..]);
    hide Orderly, Flatten, InFlight, ChannelOk, NoData, Chunks;
  }

  lemma MessageViews(w: World)
    requires Structured(w) && ViewsOk(w)
    ensures ViewsOk(ToStack(w))
  {
    hide ViewOk, ViewOf, Structured;
    var w' := ToStack(w);
    MessageSkeleton(w);
    if w' != w {
      hide ToStack;
      forall h | h in w'.conns
        ensures Bridged(w', h) && ViewOk(ViewOf(w', h))
      {
        MessageView(w, h);
      }
    }
  }

  lemma MessageView(w: World, h: Handle)
    requires Structured(w) && h in w.conns && ViewOk(ViewOf(w, h))
    ensures h in ToStack(w).conns && Bridged(ToStack(w), h) && ViewOk(ViewOf(ToStack(w), h))
  {
    hide ViewOk, Flatten, MessagesFor, PortsDistinct;
    var v, w' := ViewOf(w, h), ToStack(w);
    MessageSkeleton(w);
    if w' != w {
      MessagesTail(w.inbox, Key(h, w.conns[h].generation));
      if w.inbox[0].key != Key(h, w.conns[h].generation) {
        assert ViewOf(w', h) == v;
      } else if w.inbox[0].body.Data? {
        DataQueued(v);
        assert ViewOf(w', h) == v.(queue := v.queue + [v.msgs[0].bytes], msgs := v.msgs[1..]);
      } else {
        CloseQueued(v);
      }
    }
  }

  lemma MessagesTail(inbox: seq<Message>, key: Key)
    requires inbox != []
    ensures var all, rest := MessagesFor(inbox, key), MessagesFor(inbox[1..], key);
            if inbox[0].key == key then all != [] && all[0] == inbox[0].body && all[1..] == rest else all == rest
  {
  }

  lemma MessageTaken(w: World)
    ensures ToStack(w) == w || (w.inbox != [] && ToStack(w).inbox == w.inbox[1..] && ToStack(w).bridges == w.bridges)
  {
  }

  lemma MessageKeyed(w: World)
    requires Keyed(w)
    ensures Keyed(ToStack(w))
  {
    hide ChannelOk, Orderly, ToStack;
    MessageTaken(w);
    var w' := ToStack(w);
    if w' != w {
      forall g | g in w'.bridges
        ensures Orderly(w'.bridges[g].ended, MessagesFor(w'.inbox, Key(w'.bridges[g].handle, g)))
      {
        var key := Key(w.bridges[g].handle, g);
        MessagesTail(w.inbox, key);
        if w.inbox[0].key == key {
          OrderlyTail(w.bridges[g].ended, MessagesFor(w.inbox, key));
        }
      }
    }
  }

  lemma MessageCounted(w: World)
    requires Counted(w) && Keyed(w)
    ensures Counted(ToStack(w))
  {
    hide Counted, Keyed, Flatten, ToStack;
    var w' := ToStack(w);
    MessageTaken(w);
    MessageMoves(w);
    if w != w' && w.inbox[0].body.Data? && Current(w, w.inbox[0].key) {
      FirstFits(w);
      CountedAt(w, w', w.inbox[0].key.handle);
    } else {
      CountedUnchanged(w, w');
    }
  }

  /** What taking a message does to the queues and to what sockets accepted. */
  lemma MessageMoves(w: World)
    ensures var w' := ToStack(w);
            && w'.sockets.Keys == w.sockets.Keys && (forall h :: h in w.sockets ==> w'.sockets[h].sent == w.sockets[h].sent)
            && if w' != w && w.inbox[0].body.Data? && Current(w, w.inbox[0].key) then
                 var bytes, h := w.inbox[0].body.bytes, w.inbox[0].key.handle;
                 && w'.pending - {h} == w.pending - {h} && w'.sockets == w.sockets
                 && w.pendingBytes < MAX_PENDING && w'.pendingBytes == w.pendingBytes + |bytes|
                 && Queued(w', h) == Queued(w, h) + |bytes|
               else w'.pending == w.pending && w'.pendingBytes == w.pendingBytes
  {
    hide Flatten;
    if w.inbox != [] && w.inbox[0].body.Data? && Current(w, w.inbox[0].key) {
      FlattenAppend(Queue(w, w.inbox[0].key.handle), w.inbox[0].body.bytes);
    }
  }

  lemma FirstFits(w: World)
    requires Keyed(w) && w.inbox != [] && w.inbox[0].body.Data?
    ensures 0 < |w.inbox[0].body.bytes| <= BRIDGE_BUFFER
  {
    MessagesTail(w.inbox, w.inbox[0].key);
  }

  /** The same connections under the same handles, generations and ports. */
  predicate SameSkeleton(w: World, w': World) {
    && w'.conns.Keys == w.conns.Keys && w'.sockets.Keys == w.sockets.Keys
    && (forall h :: h in w.conns ==>
          w'.conns[h].generation == w.conns[h].generation && w'.conns[h].localPort == w.conns[h].localPort)
    && w'.bridges == w.bridges && w'.gone == w.gone && w'.accepts == w.accepts
    && w'.nextPort == w.nextPort && w'.nextGeneration == w.nextGeneration
  }

  lemma SkeletonKeeps(w: World, w': World)
    requires Structured(w) && SameSkeleton(w, w')
    requires w'.pending.Keys <= w'.conns.Keys && forall h :: h in w'.pending ==> w'.pending[h] != []
    ensures Structured(w')
  {
  }

  lemma SkeletonNumbers(w: World, w': World)
    requires Numbered(w) && LiveOrGone(w) && SameSkeleton(w, w')
    ensures Numbered(w') && LiveOrGone(w')
  {
  }

  lemma MessageSkeleton(w: World)
    ensures SameSkeleton(w, ToStack(w))
  {
    hide Queue, Socket.Closing;
    if w.inbox != [] && w.pendingBytes < MAX_PENDING && Current(w, w.inbox[0].key) {
      match w.inbox[0].body
      case Data(_) =>
      case Close => ClosingSkeleton(w, w.inbox[0].key.handle);
    }
  }

  lemma ClosingSkeleton(w: World, h: Handle)
    requires h in w.conns
    ensures SameSkeleton(w, w.(conns := w.conns[h := w.conns[h].(closeAfterFlush := true)]))
    ensures h in w.sockets ==> SameSkeleton(w, w.(sockets := w.sockets[h := w.sockets[h].Closing(ByMessage)]))
  {
  }

  lemma MessagePending(w: World)
    requires w.pending.Keys <= w.conns.Keys && forall h :: h in w.pending ==> w.pending[h] != []
    ensures var w' := ToStack(w); w'.pending.Keys <= w'.conns.Keys && forall h :: h in w'.pending ==> w'.pending[h] != []
  {
  }

  lemma PendingOk(w: World)
    requires Structured(w)
    ensures w.pending.Keys <= w.conns.Keys && forall h :: h in w.pending ==> w.pending[h] != []
  {
  }

  lemma MessageStructure(w: World)
    requires Structured(w) && Numbered(w) && LiveOrGone(w)
    ensures var w' := ToStack(w); Structured(w') && Numbered(w') && LiveOrGone(w')
  {
    hide Structured, Numbered, LiveOrGone, SameSkeleton, ToStack;
    MessageSkeleton(w);
    PendingOk(w);
    MessagePending(w);
    SkeletonKeeps(w, ToStack(w));
    SkeletonNumbers(w, ToStack(w));
  }

  lemma ToStackKeeps(w: World)
    requires Inv(w)
    ensures Inv(ToStack(w))
  {
    hide ViewsOk, Keyed, Counted, Structured, Numbered, LiveOrGone, GoneOk;
    MessageViews(w);
    MessageKeyed(w);
    MessageCounted(w);
    MessageStructure(w);
  }

  // ---------------------------------------------------------------- removing a forward

  lemma RemoveForwardKeeps(w: World, forward: (u16, u16))
    requires Inv(w)
    ensures Inv(RemoveForward(w, forward))
  {
    hide ViewsOk, Keyed, Counted, LiveOrGone, GoneOk, Numbered;
    var w' := RemoveForward(w, forward);
    ClosedViews(w, forward);
    CountedUnchanged(w, w');
    ClosedKeyed(w, forward);
  }

  lemma ClosedKeyed(w: World, forward: (u16, u16))
    requires Keyed(w) && LiveOrGone(w) && Numbered(w)
    ensures var w' := RemoveForward(w, forward); Keyed(w') && LiveOrGone(w') && Numbered(w')
  {
    hide Orderly, ChannelOk, MessagesFor;
  }

  lemma ClosedViews(w: World, forward: (u16, u16))
    requires ViewsOk(w)
    ensures ViewsOk(RemoveForward(w, forward))
  {
    hide ViewOk, MessagesFor;
    var w' := RemoveForward(w, forward);
    forall h | h in w'.conns
      ensures Bridged(w', h) && ViewOk(ViewOf(w', h))
    {
      AbruptView(ViewOf(w, h));
      assert ViewOf(w', h) == ViewOf(w, h)
          || ViewOf(w', h) == ViewOf(w, h).(socket := w.sockets[h].Closing(Abrupt));
    }
  }

  // ---------------------------------------------------------------- whole runs

  lemma InvParts(w: World)
    requires Inv(w)
    ensures w.sockets.Keys == w.conns.Keys && Ports.InRange(w.nextPort)
    ensures forall h :: h in w.conns ==> Bridged(w, h)
    ensures forall g :: g in w.bridges ==> ChannelOk(w.bridges[g])
  {
  }

  lemma BridgeStepKeeps(w: World, e: Event)
    requires Inv(w) && Possible(w, e)
    requires e.BridgeReads? || e.BridgeSignalsClose? || e.BridgeTakes? || e.BridgeReturns?
    ensures Inv(Step(w, e))
  {
    hide Inv;
    InvParts(w);
    var g := e.generation;
    var b := w.bridges[g];
    var b' := Step(w, e).bridges[g];
    var bodies := match e
      case BridgeReads(_, bytes) => [Data(bytes)]
      case BridgeSignalsClose(_) => [Close]
      case _ => [];
    assert ChannelOk(b);
    assert MaySpeak(b, b', bodies);
    assert Step(w, e).inbox == w.inbox + Letters(Key(b.handle, g), bodies);
    assert Step(w, e) == Speak(w, g, b', bodies);
    hide MaySpeak;
    SpeakKeeps(w, g, b', bodies);
  }

  lemma StepKeeps(w: World, e: Event)
    requires Inv(w) && Possible(w, e)
    ensures Inv(Step(w, e))
  {
    hide Inv, Accept, ToStack, Pump, RemoveForward, SetSocket, SetBridge, Lists;
    InvParts(w);
    match e
    case Accepts(h, forward) => AcceptKeeps(w, h, forward);
    case TakesMessage => ToStackKeeps(w);
    case RemovesForward(forward) => RemoveForwardKeeps(w, forward);
    case Pumps(order) => PumpKeeps(w, order);
    case BridgeReads(_, _) => BridgeStepKeeps(w, e);
    case BridgeSignalsClose(_) => BridgeStepKeeps(w, e);
    case BridgeTakes(_) => BridgeStepKeeps(w, e);
    case BridgeReturns(_) => BridgeStepKeeps(w, e);
    case Drains(h, room) => SocketKeeps(w, h, w.sockets[h].(room := room));
    case Arrives(h, bytes) => SocketKeeps(w, h, w.sockets[h].(received := w.sockets[h].received + bytes));
    case FinArrives(h) => SocketKeeps(w, h, w.sockets[h].(fin := true));
    case Dies(h) => SocketKeeps(w, h, w.sockets[h].(dead := true));
  }

  lemma {:induction false} RunKeeps(events: seq<Event>)
    ensures Inv(Run(events))
  {
    if events == [] {
      assert QueueBytes(START) == map[] && HeaderBytes(START) == map[];
    } else {
      hide Inv, Step, Possible;
      RunKeeps(events[..|events| - 1]);
      var w := Run(events[..|events| - 1]);
      if Possible(w, events[|events| - 1]) {
        StepKeeps(w, events[|events| - 1]);
      }
    }
  }

  // ---------------------------------------------------------------- what holds in every run

  /** The socket of a generation: its live one, or the last state of the removed one. */
  function SocketOf(w: World, g: u64): Option<Socket> {
    if g !in w.bridges then None
    else if Current(w, Key(w.bridges[g].handle, g)) && w.bridges[g].handle in w.sockets
    then Some(w.sockets[w.bridges[g].handle])
    else if g in w.gone then Some(w.gone[g]) else None
  }

  predicate Live(w: World, g: u64) {
    g in w.bridges && Current(w, Key(w.bridges[g].handle, g)) && w.bridges[g].handle in w.sockets
  }

  lemma SocketFacts(w: World, g: u64)
    requires Inv(w) && g in w.bridges
    ensures SocketOf(w, g).Some? && GoneOk(w.bridges[g], SocketOf(w, g).value)
    ensures Live(w, g) ==> var h := w.bridges[g].handle;
              Bridged(w, h) && w.conns[h].generation == g && ViewOk(ViewOf(w, h))
  {
    var h := w.bridges[g].handle;
    if Current(w, Key(h, g)) {
      LiveView(w, h);
      ViewMeansGoneOk(ViewOf(w, h));
    }
    hide ViewOk, GoneOk, Keyed, Counted;
  }

  /** For every connection ever accepted, whatever handle it got: what its socket accepted is a
      prefix of its destination port, big endian, followed by what its own bridge read, in order;
      while it lives, the rest is its queue and what is still on the channel, nothing else. */
  lemma StreamIntact(events: seq<Event>, g: u64)
    requires g in Run(events).bridges
    ensures var w := Run(events);
            var b := w.bridges[g];
            && SocketOf(w, g).Some? && SocketOf(w, g).value.sent <= Be16(b.port) + b.produced
            && (Live(w, g) ==>
                  SocketOf(w, g).value.sent + Flatten(Queue(w, b.handle))
                    + InFlight(MessagesFor(w.inbox, Key(b.handle, g)))
                  == Be16(b.port) + b.produced)
  {
    hide Run, Inv, Delivered, Orderly, ChannelOk, Flatten, InFlight, MessagesFor;
    RunKeeps(events);
    SocketFacts(Run(events), g);
  }

  /** A socket closed for a `Close` message had accepted everything its bridge ever read. */
  lemma ClosedAfterFlush(events: seq<Event>, g: u64)
    requires g in Run(events).bridges
    ensures var w := Run(events);
            var s := SocketOf(w, g);
            s.Some? && (s.value.closedBy == Some(ByMessage) ==>
                          && s.value.sent == Be16(w.bridges[g].port) + w.bridges[g].produced
                          && w.bridges[g].ended
                          && (Live(w, g) ==> w.bridges[g].handle !in w.pending))
  {
    hide Run, Delivered, Orderly, ChannelOk, Flatten, InFlight, MessagesFor, Keyed, Counted;
    RunKeeps(events);
    SocketFacts(Run(events), g);
  }

  /** What was put on a connection's channel is an in-order prefix of what its socket received; the
      end of file is told at most once, last, and after every byte that ever arrived.  What the
      bridge took so far is what was put there, less the at most 16 messages still queued. */
  lemma ReceivedInOrder(events: seq<Event>, g: u64)
    requires g in Run(events).bridges
    ensures var w := Run(events);
            var b := w.bridges[g];
            && SocketOf(w, g).Some?
            && var s := SocketOf(w, g).value;
            && Chunks(b.handed) <= s.received
            && (forall i :: 0 <= i < |b.handed| && b.handed[i].PeerEof? ==>
                  i == |b.handed| - 1 && s.fin && Chunks(b.handed) == s.received)
            && |b.channel| <= 16 && |b.channel| <= |b.handed|
            && b.channel == b.handed[|b.handed| - |b.channel|..]
  {
    hide Run, Inv, ViewOk, Stream, Delivered, Chunks;
    RunKeeps(events);
    var w := Run(events);
    SocketFacts(w, g);
    InvParts(w);
    DeliveredInOrder(w.bridges[g].handed, SocketOf(w, g).value);
  }

  lemma DeliveredInOrder(handed: seq<BridgeMsg>, s: Socket)
    requires Delivered(handed, s)
    ensures Chunks(handed) <= s.received
    ensures forall i :: 0 <= i < |handed| && handed[i].PeerEof? ==>
              i == |handed| - 1 && s.fin && Chunks(handed) == s.received
  {
    hide Chunks;
  }

  lemma {:induction false} DistinctPortsCount(w: World, handles: set<Handle>)
    requires handles <= w.conns.Keys
    requires forall h1, h2 :: h1 in handles && h2 in handles && h1 != h2 ==>
               w.conns[h1].localPort != w.conns[h2].localPort
    ensures |handles| == |set h | h in handles :: w.conns[h].localPort|
  {
    var ports := set h | h in handles :: w.conns[h].localPort;
    if handles != {} {
      var h :| h in handles;
      var rest := handles - {h};
      DistinctPortsCount(w, rest);
      assert ports == (set h' | h' in rest :: w.conns[h'].localPort) + {w.conns[h].localPort};
    } else {
      assert ports == {};
    }
  }

  lemma ConnectionsBounded(w: World)
    requires Structured(w)
    ensures |w.conns| <= 25536
  {
    DistinctPortsCount(w, w.conns.Keys);
    var ports := set h | h in w.conns.Keys :: w.conns[h].localPort;
    assert forall p :: p in ports ==> Ports.InRange(p);
    Ports.AtMostCount(ports, 65536);
  }

  lemma CountBounded(w: World)
    requires Structured(w) && Counted(w)
    ensures w.pendingBytes <= MAX_PENDING - 1 + BRIDGE_BUFFER + 2 * Ports.COUNT
  {
    ConnectionsBounded(w);
    hide Structured;
    SumAtMostTwice(HeaderBytes(w));
    assert |HeaderBytes(w)| == |w.conns| by { HeadersPerConnection(w); }
  }

  lemma HeadersPerConnection(w: World)
    requires w.sockets.Keys == w.conns.Keys
    ensures |HeaderBytes(w)| == |w.conns|
  {
    assert HeaderBytes(w).Keys == w.sockets.Keys;
    assert |HeaderBytes(w).Keys| == |w.conns.Keys|;
  }

  lemma QueuesOk(w: World, h: Handle)
    requires Structured(w) && ViewsOk(w) && h in w.pending
    ensures h in w.conns && w.pending[h] != [] && NoEmptyChunk(w.pending[h])
  {
    assert ViewOk(ViewOf(w, h));
  }

  /** The backlog counter is the number of queued bytes, so nothing saturates, and it stays below
      the cap plus one bridge buffer plus the port headers of all possible connections. */
  lemma AccountingExact(events: seq<Event>)
    ensures var w := Run(events);
            && w.pendingBytes == Sum(QueueBytes(w))
            && w.pendingBytes <= 0x1FF_FFFF + 8192 + 2 * 25536
            && forall h :: h in w.pending ==> h in w.conns && w.pending[h] != [] && NoEmptyChunk(w.pending[h])
  {
    hide Run, Structured, ViewsOk, Keyed, LiveOrGone, Numbered, AllGoneOk, NoEmptyChunk, QueueBytes, HeaderBytes;
    RunKeeps(events);
    var w := Run(events);
    CountBounded(w);
    forall h | h in w.pending
      ensures h in w.conns && w.pending[h] != [] && NoEmptyChunk(w.pending[h])
    {
      QueuesOk(w, h);
    }
  }

  /** No subtraction of the loop saturates. */
  lemma NothingSaturates(w: World, h: Handle)
    requires Inv(w) && h in w.conns
    ensures Bridged(w, h)
    ensures h in w.pending ==>
              Flush(w, h).pendingBytes == w.pendingBytes - Accepted(w.sockets[h], w.pending[h])
    ensures Remove(w, h).pendingBytes == w.pendingBytes - Queued(w, h)
  {
    hide Inv, Counted, ViewOk, Flatten, Drop;
    LiveView(w, h);
    QueuedIsCounted(w, h);
  }

  /** Live connections never share a source port or a generation. */
  lemma PortsNeverShared(events: seq<Event>, h1: Handle, h2: Handle)
    requires h1 in Run(events).conns && h2 in Run(events).conns && h1 != h2
    ensures var w := Run(events);
            && w.conns[h1].localPort != w.conns[h2].localPort
            && w.conns[h1].generation != w.conns[h2].generation
            && Ports.InRange(w.conns[h1].localPort)
  {
    hide Run, ViewsOk, Keyed, Counted, AllGoneOk;
    RunKeeps(events);
  }

  /** A pump leaves nothing it could move: bytes stay queued only if the socket has no room or is
      closed. */
  lemma FlushMovesAll(w: World, h: Handle)
    requires Inv(w) && h in w.conns
    ensures var w' := Flush(w, h);
            h in w'.pending ==> h in w'.sockets && (w'.sockets[h].room == 0 || w'.sockets[h].closedBy.Some? || w'.sockets[h].dead)
  {
    hide Inv, ViewOk, Counted, Flatten, Drop, MessagesFor;
    LiveView(w, h);
    if h in w.pending {
      NoEmptyIn(w, h);
      DropFlattens(w.pending[h], Accepted(w.sockets[h], w.pending[h]));
    }
  }

  lemma NoEmptyIn(w: World, h: Handle)
    requires Inv(w) && h in w.conns
    ensures NoEmptyChunk(Queue(w, h))
  {
    LiveView(w, h);
  }

  /** Received bytes stay only if the bridge's channel is full or closed. */
  lemma {:induction false} HandOverMovesAll(s: Socket, b: Bridge)
    ensures var (s', b') := HandOver(s, b); s'.taken < |s'.received| ==> b'.done || |b'.channel| >= 16
    decreases |s.Rx()|
  {
    var n := Min(PUMP_BUFFER, |s.Rx()|);
    if HasSpace(b) && n != 0 {
      var s1, b1 := s.(taken := s.taken + n), Push(b, Chunk(s.Rx()[..n]));
      assert |s1.Rx()| < |s.Rx()|;
      HandOverMovesAll(s1, b1);
    }
  }

  /** A deferred close is not forgotten: once the socket has room for the whole queue, a pump sends
      the rest and closes, with the stream complete. */
  lemma DeferredCloseHappens(w: World, h: Handle)
    requires Inv(w) && h in w.conns && w.conns[h].closeAfterFlush
    requires Bridged(w, h) && w.sockets[h].closedBy.None? && !w.sockets[h].dead && Queued(w, h) <= w.sockets[h].room
    ensures var w' := CloseFlushed(Flush(w, h), h);
            && Bridged(w', h) && w'.sockets[h].closedBy == Some(ByMessage) && h !in w'.pending
            && w'.sockets[h].sent == Stream(w'.bridges[w'.conns[h].generation])
  {
    hide Inv, Counted, Flatten, Drop, ViewOk, MessagesFor;
    LiveView(w, h);
    EverythingQueued(ViewOf(w, h));
    if h in w.pending {
      WholeQueueDropped(w, h);
      assert Accepted(w.sockets[h], w.pending[h]) == |Flatten(w.pending[h])|;
    }
  }

  lemma EverythingQueued(v: View)
    requires ViewOk(v) && v.conn.closeAfterFlush
    ensures v.socket.sent + Flatten(v.queue) == Stream(v.bridge) && NoEmptyChunk(v.queue)
    ensures v.queue == [] ==> v.socket.sent == Stream(v.bridge)
  {
    NothingInFlight(v.msgs);
    hide Delivered, Orderly, ChannelOk;
  }

  lemma WholeQueueDropped(w: World, h: Handle)
    requires h in w.pending && NoEmptyChunk(w.pending[h])
    ensures Drop(w.pending[h], Queued(w, h)) == []
  {
    DropFlattens(w.pending[h], Queued(w, h));
  }
}
