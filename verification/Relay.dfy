/** The client's relay: local TCP connections multiplexed onto one userspace TCP stack.  Each
    accepted connection gets a bridge task, a channel in both directions and a stack socket whose
    handle may be reused later; a generation number tells the uses apart.

    The stack is known by a contract: a socket accepts a prefix of what is offered, as long as
    neither side closed it, and hands out what arrived in order.  Kernel sockets appear only as
    what the bridge tasks read and take. */
module Relay {
  import opened Octets
  import Ports

  const MAX_PENDING: nat := 0x200_0000
  const CHANNEL_CAPACITY: nat := 16
  const BRIDGE_BUFFER: nat := 8192
  const PUMP_BUFFER: nat := 4096
  const MAX_GENERATION: u64 := 0xFFFF_FFFF_FFFF_FFFF

  type Handle = nat

  datatype StackMsg = Data(bytes: seq<byte>) | Close

  datatype BridgeMsg = Chunk(bytes: seq<byte>) | PeerEof

  datatype Key = Key(handle: Handle, generation: u64)

  /** What a bridge task put on the shared channel toward the stack. */
  datatype Message = Message(key: Key, body: StackMsg)

  /** Why a socket was first closed: for a `Close` message, or abruptly. */
  datatype Cause = ByMessage | Abrupt

  /** A stack socket: all bytes it accepted, the room left in its buffer, all bytes that arrived
      and how many of them were handed out, whether the peer's FIN arrived, whether this side
      closed it, and whether the connection is over. */
  datatype Socket = Socket(sent: seq<byte>, room: nat, received: seq<byte>, taken: nat, fin: bool,
                           closedBy: Option<Cause>, dead: bool)
  {
    predicate CanSend() {
      closedBy.None? && !dead
    }

    function Rx(): seq<byte> {
      if taken <= |received| then received[taken..] else []
    }

    predicate AtPeerEof() {
      fin && Rx() == [] && !dead
    }

    function Closing(cause: Cause): Socket {
      if closedBy.None? then this.(closedBy := Some(cause)) else this
    }
  }

  const NEW_SOCKET: Socket := Socket([], 0, [], 0, false, None, false)

  datatype Conn = Conn(forward: (u16, u16), localPort: u16, generation: u64, closeAfterFlush: bool,
                       peerEofSent: bool)

  /** A bridge task, by generation: its key's handle, the port its stream starts with, all it read
      from its kernel socket, whether it signalled a close, whether it returned, the channel
      toward it and everything ever put on that channel. */
  datatype Bridge = Bridge(handle: Handle, port: u16, produced: seq<byte>, ended: bool, done: bool,
                           channel: seq<BridgeMsg>, handed: seq<BridgeMsg>)

  /** The loop's variables, the stack, the tasks and the shared channel; `gone` keeps the last
      state of removed sockets by generation. */
  datatype World = World(
    conns: map<Handle, Conn>, pending: map<Handle, seq<seq<byte>>>, pendingBytes: nat,
    nextPort: u16, nextGeneration: u64, accepts: nat,
    sockets: map<Handle, Socket>, bridges: map<u64, Bridge>, inbox: seq<Message>,
    gone: map<u64, Socket>)

  const START: World := World(map[], map[], 0, Ports.FIRST, 1, 0, map[], map[], [], map[])

  // ---------------------------------------------------------------- byte queues

  function Flatten(q: seq<seq<byte>>): seq<byte> {
    if q == [] then [] else q[0] + Flatten(q[1..])
  }

  /** The queue without its first n bytes; emptied chunks disappear. */
  function Drop(q: seq<seq<byte>>, n: nat): seq<seq<byte>> {
    if q == [] then []
    else if n < |q[0]| then [q[0][n..]] + q[1..]
    else Drop(q[1..], n - |q[0]|)
  }

  function Min(a: nat, b: nat): nat {
    if a < b then a else b
  }

  /** `usize::saturating_sub` */
  function SatSub(a: nat, b: nat): nat {
    if a < b then 0 else a - b
  }

  // ---------------------------------------------------------------- the branches of the loop

  function UsedPorts(w: World): set<u16> {
    set h | h in w.conns :: w.conns[h].localPort
  }

  function Succ(generation: u64): u64 {
    if generation == MAX_GENERATION then 1 else generation + 1
  }

  function Header(port: u16): seq<byte> {
    Be16(port)
  }

  /** A local connection was accepted; `h` is the handle the stack gives out for it. */
  function Accept(w: World, h: Handle, forward: (u16, u16)): World
    requires Ports.InRange(w.nextPort)
  {
    var (next, port) := Ports.Allocated(w.nextPort, UsedPorts(w));
    if port.None? then w.(nextPort := next) else
    var g := w.nextGeneration;
    w.(nextPort := next, nextGeneration := Succ(g), accepts := w.accepts + 1,
       sockets := w.sockets[h := NEW_SOCKET],
       conns := w.conns[h := Conn(forward, port.value, g, false, false)],
       bridges := w.bridges[g := Bridge(h, forward.1, [], false, false, [], [])],
       pending := w.pending[h := Queue(w, h) + [Header(forward.1)]],
       pendingBytes := w.pendingBytes + 2)
  }

  function Queue(w: World, h: Handle): seq<seq<byte>> {
    if h in w.pending then w.pending[h] else []
  }

  predicate Current(w: World, key: Key) {
    key.handle in w.conns && w.conns[key.handle].generation == key.generation
  }

  /** The next message of the bridges, received only while the backlog is below its cap. */
  function ToStack(w: World): World
  {
    if w.inbox == [] || w.pendingBytes >= MAX_PENDING then w else
    var m := w.inbox[0];
    var w1 := w.(inbox := w.inbox[1..]);
    var h := m.key.handle;
    if !Current(w, m.key) then w1 else
    match m.body
    case Data(bytes) =>
      w1.(pendingBytes := w.pendingBytes + |bytes|, pending := w.pending[h := Queue(w, h) + [bytes]])
    case Close =>
      if h in w.pending then w1.(conns := w.conns[h := w.conns[h].(closeAfterFlush := true)])
      else if h in w.sockets then w1.(sockets := w.sockets[h := w.sockets[h].Closing(ByMessage)])
      else w1
  }

  /** A forward was removed: its connections are closed at once. */
  function RemoveForward(w: World, forward: (u16, u16)): World {
    w.(sockets := map h | h in w.sockets ::
         if h in w.conns && w.conns[h].forward == forward then w.sockets[h].Closing(Abrupt) else w.sockets[h])
  }

  // ---------------------------------------------------------------- pump

  function Accepted(s: Socket, q: seq<seq<byte>>): nat {
    if s.CanSend() then Min(s.room, |Flatten(q)|) else 0
  }

  function Flush(w: World, h: Handle): World
    requires h in w.sockets
  {
    if h !in w.pending then w else
    var q, s := w.pending[h], w.sockets[h];
    var n := Accepted(s, q);
    var rest := Drop(q, n);
    w.(sockets := w.sockets[h := s.(sent := s.sent + Flatten(q)[..n], room := s.room - n)],
       pendingBytes := SatSub(w.pendingBytes, n),
       pending := if rest == [] then w.pending - {h} else w.pending[h := rest])
  }

  function CloseFlushed(w: World, h: Handle): World
    requires h in w.sockets && h in w.conns
  {
    if h in w.pending || !w.conns[h].closeAfterFlush then w else
    w.(sockets := w.sockets[h := w.sockets[h].Closing(ByMessage)],
       conns := w.conns[h := w.conns[h].(closeAfterFlush := false)])
  }

  predicate HasSpace(b: Bridge) {
    !b.done && |b.channel| < CHANNEL_CAPACITY
  }

  function Push(b: Bridge, m: BridgeMsg): Bridge {
    b.(channel := b.channel + [m], handed := b.handed + [m])
  }

  /** Fill the bridge's channel with what arrived. */
  function HandOver(s: Socket, b: Bridge): (Socket, Bridge)
    decreases |s.Rx()|
  {
    var n := Min(PUMP_BUFFER, |s.Rx()|);
    if !HasSpace(b) || n == 0 then (s, b) else
    HandOver(s.(taken := s.taken + n), Push(b, Chunk(s.Rx()[..n])))
  }

  /** The bridge behind a live connection. */
  predicate Bridged(w: World, h: Handle) {
    h in w.conns && h in w.sockets && w.conns[h].generation in w.bridges
  }

  function Receive(w: World, h: Handle): World
    requires Bridged(w, h)
  {
    var g := w.conns[h].generation;
    var (s, b) := HandOver(w.sockets[h], w.bridges[g]);
    w.(sockets := w.sockets[h := s], bridges := w.bridges[g := b])
  }

  predicate Finished(w: World, h: Handle)
    requires Bridged(w, h)
  {
    var b := w.bridges[w.conns[h].generation];
    w.sockets[h].dead && (b.done || b.channel == [])
  }

  function TellEof(w: World, h: Handle): World
    requires Bridged(w, h)
  {
    var g := w.conns[h].generation;
    var b := w.bridges[g];
    if Finished(w, h) || !w.sockets[h].AtPeerEof() || w.conns[h].peerEofSent then w
    else if b.done then w.(sockets := w.sockets[h := w.sockets[h].Closing(Abrupt)])
    else if |b.channel| >= CHANNEL_CAPACITY then w
    else w.(bridges := w.bridges[g := Push(b, PeerEof)],
            conns := w.conns[h := w.conns[h].(peerEofSent := true)])
  }

  function BeforeEof(w: World, h: Handle): (r: World)
    requires Bridged(w, h)
    ensures Bridged(r, h)
  {
    Receive(CloseFlushed(Flush(w, h), h), h)
  }

  function PumpOne(w: World, h: Handle): (r: World)
    requires Bridged(w, h)
    ensures Bridged(r, h)
  {
    TellEof(BeforeEof(w, h), h)
  }

  /** The first k handles of `order` pumped, with those found to be over. */
  function PumpFirst(w: World, order: seq<Handle>, k: nat): (World, seq<Handle>)
    requires k <= |order|
  {
    if k == 0 then (w, []) else
    var (w1, reap) := PumpFirst(w, order, k - 1);
    var h := order[k - 1];
    if !Bridged(w1, h) then (w1, reap) else
    (PumpOne(w1, h), if Finished(BeforeEof(w1, h), h) then reap + [h] else reap)
  }

  function Remove(w: World, h: Handle): World {
    if !(h in w.conns && h in w.sockets) then w else
    w.(gone := w.gone[w.conns[h].generation := w.sockets[h]],
       sockets := w.sockets - {h}, conns := w.conns - {h}, pending := w.pending - {h},
       pendingBytes := SatSub(w.pendingBytes, |Flatten(Queue(w, h))|))
  }

  function RemoveFirst(w: World, reap: seq<Handle>, k: nat): World
    requires k <= |reap|
  {
    if k == 0 then w else Remove(RemoveFirst(w, reap, k - 1), reap[k - 1])
  }

  /** Some order in which the connection map is walked. */
  predicate Lists(order: seq<Handle>, handles: set<Handle>) {
    && (forall h :: h in handles ==> h in order)
    && (forall i :: 0 <= i < |order| ==> order[i] in handles)
    && (forall i, j :: 0 <= i < j < |order| ==> order[i] != order[j])
  }

  function Pump(w: World, order: seq<Handle>): World
  {
    var (w1, reap) := PumpFirst(w, order, |order|);
    RemoveFirst(w1, reap, |reap|)
  }

  // ---------------------------------------------------------------- everything that can happen

  datatype Event =
    | Accepts(handle: Handle, forward: (u16, u16))
    | TakesMessage
    | RemovesForward(forward: (u16, u16))
    | Pumps(order: seq<Handle>)
    // the bridge tasks
    | BridgeReads(generation: u64, bytes: seq<byte>)
    | BridgeSignalsClose(generation: u64)
    | BridgeTakes(generation: u64)
    | BridgeReturns(generation: u64)
    // the network side of the stack
    | Drains(handle: Handle, room: nat)
    | Arrives(handle: Handle, bytes: seq<byte>)
    | FinArrives(handle: Handle)
    | Dies(handle: Handle)

  predicate Possible(w: World, e: Event) {
    match e
    case Accepts(h, _) => h !in w.sockets && Ports.InRange(w.nextPort) && w.accepts < MAX_GENERATION
    case TakesMessage => true
    case RemovesForward(_) => true
    case Pumps(order) => Lists(order, w.conns.Keys)
    case BridgeReads(g, bytes) =>
      g in w.bridges && !w.bridges[g].ended && !w.bridges[g].done && 0 < |bytes| <= BRIDGE_BUFFER
    case BridgeSignalsClose(g) => g in w.bridges && !w.bridges[g].done
    case BridgeTakes(g) => g in w.bridges && !w.bridges[g].done && w.bridges[g].channel != []
    case BridgeReturns(g) => g in w.bridges && w.bridges[g].ended
    case Drains(h, _) => h in w.sockets
    case Arrives(h, _) => h in w.sockets && !w.sockets[h].fin && !w.sockets[h].dead
    case FinArrives(h) => h in w.sockets
    case Dies(h) => h in w.sockets
  }

  function SetSocket(w: World, h: Handle, s: Socket): World {
    w.(sockets := w.sockets[h := s])
  }

  function SetBridge(w: World, g: u64, b: Bridge): World {
    w.(bridges := w.bridges[g := b])
  }

  function Step(w: World, e: Event): World
    requires Possible(w, e)
  {
    match e
    case Accepts(h, forward) => Accept(w, h, forward)
    case TakesMessage => ToStack(w)
    case RemovesForward(forward) => RemoveForward(w, forward)
    case Pumps(order) => Pump(w, order)
    case BridgeReads(g, bytes) =>
      var b := w.bridges[g];
      SetBridge(w, g, b.(produced := b.produced + bytes)).(
        inbox := w.inbox + [Message(Key(b.handle, g), Data(bytes))])
    case BridgeSignalsClose(g) =>
      var b := w.bridges[g];
      SetBridge(w, g, b.(ended := true)).(inbox := w.inbox + [Message(Key(b.handle, g), Close)])
    case BridgeTakes(g) => SetBridge(w, g, w.bridges[g].(channel := w.bridges[g].channel[1..]))
    case BridgeReturns(g) => SetBridge(w, g, w.bridges[g].(done := true, channel := []))
    case Drains(h, room) => SetSocket(w, h, w.sockets[h].(room := room))
    case Arrives(h, bytes) => SetSocket(w, h, w.sockets[h].(received := w.sockets[h].received + bytes))
    case FinArrives(h) => SetSocket(w, h, w.sockets[h].(fin := true))
    case Dies(h) => SetSocket(w, h, w.sockets[h].(dead := true))
  }

  /** The world after a run; a run stops short at the first event that cannot happen. */
  function Run(events: seq<Event>): World {
    if events == [] then START else
    var w := Run(events[..|events| - 1]);
    if Possible(w, events[|events| - 1]) then Step(w, events[|events| - 1]) else w
  }
}
