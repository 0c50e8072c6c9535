/** One direction of an established session over a hostile link.  The link may drop, repeat,
    reorder, cut, splice and invent frames; all it cannot do is produce octets of a ciphertext
    under the session key that the sender never sealed. */
module RecordLayer {
  import opened Octets
  import opened Frame
  import opened Crypto

  datatype Record = Record(msgType: byte, sessionId: u32, payload: seq<Octet>)

  /** Sender and receiver, everything given to `seal` and everything `open` returned. */
  datatype Link = Link(tx: CryptoState, rx: CryptoState, sent: seq<Record>, got: seq<Record>)

  datatype Event = Send(record: Record) | Deliver(raw: seq<Octet>)

  /** The other end of a direction: what the client sends the server receives, and the reverse. */
  function Facing(dir: Dir): Dir {
    match dir
    case C2S => S2C
    case S2C => C2S
  }

  function Established(keys: Keys, dir: Dir): Link {
    Link(CryptoState(keys, dir, 0, None), CryptoState(keys, Facing(dir), 0, None), [], [])
  }

  function Step(l: Link, e: Event): Link {
    match e
    case Send(r) =>
      var (tx, raw) := SealRecord(l.tx, r.msgType, r.sessionId, r.payload);
      l.(tx := tx, sent := l.sent + [r])
    case Deliver(raw) =>
      var d := Decode(raw);
      if d.Err? then l else Receive(l, d.value)
  }

  function Receive(l: Link, f: Frame): Link {
    var (rx, plain) := OpenRecord(l.rx, f);
    if plain.None? then l.(rx := rx)
    else l.(rx := rx, got := l.got + [Record(f.msgType, f.sessionId, plain.value)])
  }

  function Run(l: Link, events: seq<Event>): Link {
    if events == [] then l else Step(Run(l, events[..|events| - 1]), events[|events| - 1])
  }

  function BoxAt(l: Link, i: nat): Box
    requires i < |l.sent|
  {
    var r := l.sent[i];
    RecordBox(l.tx.keys, l.tx.txDir, i % TWO32, r.msgType, r.sessionId, r.payload)
  }

  /** The frame the sender put on the link for its i-th record. */
  function WireAt(l: Link, i: nat): seq<Octet>
    requires i < |l.sent|
  {
    Clears(BoxAt(l, i).aad) + Seal(BoxAt(l, i))
  }

  predicate WasSealed(l: Link, box: Box) {
    exists i: nat :: i < |l.sent| && box == BoxAt(l, i)
  }

  /** The link knows a ciphertext octet under the session key only from a sealed frame. */
  predicate Known(l: Link, octets: seq<Octet>) {
    forall k :: 0 <= k < |octets| && octets[k].Cipher? && octets[k].box.key == l.tx.keys.Key(l.tx.txDir)
      ==> WasSealed(l, octets[k].box)
  }

  predicate Possible(l: Link, e: Event) {
    e.Deliver? ==> Known(l, e.raw)
  }

  predicate PossibleRun(l: Link, events: seq<Event>) {
    events == [] ||
    (PossibleRun(l, events[..|events| - 1])
     && Possible(Run(l, events[..|events| - 1]), events[|events| - 1]))
  }

  /** `order` names, for each returned record, its place among the sent ones, strictly rising. */
  predicate Embeds(order: seq<nat>, got: seq<Record>, sent: seq<Record>) {
    && |order| == |got|
    && (forall k :: 0 <= k < |order| ==> order[k] < |sent| && got[k] == sent[order[k]])
    && (forall j, k :: 0 <= j < k < |order| ==> order[j] < order[k])
  }

  ghost predicate InOrderSubsequence(got: seq<Record>, sent: seq<Record>) {
    exists order :: Embeds(order, got, sent)
  }

  /** What the two cipher states remember about the run so far. */
  predicate Consistent(l: Link, keys: Keys, dir: Dir, order: seq<nat>) {
    && l.tx.keys == keys && l.tx.txDir == dir && l.rx.keys == keys && l.rx.txDir == Facing(dir)
    && l.tx.txSeq == |l.sent| % TWO32
    && Embeds(order, l.got, l.sent)
    && l.rx.last == (if order == [] then None else Some(order[|order| - 1] % TWO32))
  }

  // ---------------------------------------------------------------- authenticity

  predicate Paired(l: Link) {
    l.rx.keys == l.tx.keys && l.rx.txDir == Facing(l.tx.txDir)
  }

  function Opened(l: Link, f: Frame): Option<seq<Octet>> {
    Open(l.tx.keys.Key(l.tx.txDir), l.tx.keys.Nonce(f.seqNo), HeaderOf(f), f.payload)
  }

  /** What the receiver opens is a sealed record, at an index its sequence number abbreviates. */
  lemma OpenedWasSent(l: Link, f: Frame) returns (i: nat)
    requires Known(l, f.payload) && Opened(l, f).Some?
    ensures i < |l.sent| && f.seqNo == i % TWO32
    ensures l.sent[i] == Record(f.msgType, f.sessionId, Opened(l, f).value)
    ensures f.payload == Seal(BoxAt(l, i))
  {
    var keys := l.tx.keys;
    var box := Box(keys.Key(l.tx.txDir), keys.Nonce(f.seqNo), HeaderOf(f), Opened(l, f).value);
    OpenExactly(box.key, box.nonce, box.aad, f.payload, box.plain);
    assert f.payload[0] == Cipher(box, 0);
    i :| i < |l.sent| && box == BoxAt(l, i);
    NonceInjective(keys, f.seqNo, i % TWO32);
    var r := l.sent[i];
    HeaderInjective(f.msgType, f.sessionId, f.seqNo, f.len,
                    r.msgType, r.sessionId, i % TWO32, SealedLen(r.payload));
  }

  /** One received frame either changes nothing or returns one authentic, fresh record. */
  lemma ReceiveStep(l: Link, keys: Keys, dir: Dir, order: seq<nat>, f: Frame) returns (order': seq<nat>)
    requires Consistent(l, keys, dir, order) && Known(l, f.payload)
    requires |l.sent| <= 0x8000_0001
    ensures Consistent(Receive(l, f), keys, dir, order')
    ensures order' == order ==> Receive(l, f) == l
  {
    hide Open, Known, BoxAt, HeaderOf, Fresh;
    order' := order;
    if Opened(l, f).Some? && Fresh(l.rx.last, f.seqNo) {
      var i := OpenedWasSent(l, f);
      if order != [] {
        FreshIsNewer(order[|order| - 1], i);
      }
      order' := order + [i];
      EmbedsOneMore(order, l.got, l.sent, i);
    }
  }

  lemma FreshIsNewer(last: nat, index: nat)
    requires last <= 0x8000_0000 && index <= 0x8000_0000 && Fresh(Some(last % TWO32), index % TWO32)
    ensures last < index
  {
    WindowOnIndices(last, index);
  }

  lemma EmbedsOneMore(order: seq<nat>, got: seq<Record>, sent: seq<Record>, i: nat)
    requires Embeds(order, got, sent) && i < |sent| && (order != [] ==> order[|order| - 1] < i)
    ensures Embeds(order + [i], got + [sent[i]], sent)
  {
  }

  lemma DeliverStep(l: Link, keys: Keys, dir: Dir, order: seq<nat>, raw: seq<Octet>) returns (order': seq<nat>)
    requires Consistent(l, keys, dir, order) && Possible(l, Deliver(raw))
    requires |l.sent| <= 0x8000_0001
    ensures Consistent(Step(l, Deliver(raw)), keys, dir, order')
  {
    var d := Decode(raw);
    if d.Ok? {
      order' := ReceiveStep(l, keys, dir, order, d.value);
    } else {
      order' := order;
    }
  }

  lemma SendStep(l: Link, keys: Keys, dir: Dir, order: seq<nat>, r: Record)
    requires Consistent(l, keys, dir, order)
    ensures Consistent(Step(l, Send(r)), keys, dir, order)
  {
    assert (|l.sent| % TWO32 + 1) % TWO32 == (|l.sent| + 1) % TWO32;
  }

  /** Delivering a sealed frame, with any padding, returns it exactly when it is fresh. */
  lemma DeliverSealed(l: Link, i: nat, padding: seq<Octet>)
    requires Paired(l)
    requires i < |l.sent| && |l.sent[i].payload| <= 65519
    ensures Step(l, Deliver(WireAt(l, i) + padding))
            == if Fresh(l.rx.last, i % TWO32)
               then l.(rx := l.rx.(last := Some(i % TWO32)), got := l.got + [l.sent[i]])
               else l
  {
    var r, box := l.sent[i], BoxAt(l, i);
    assert [] + Seal(box) == Seal(box);
    SealedFrameDecodes(r.msgType, r.sessionId, i % TWO32, [], box, padding);
    OpenExactly(box.key, box.nonce, box.aad, Seal(box), r.payload);
  }

  // ---------------------------------------------------------------- the two directions

  /** What the client seals the server opens, whatever either has sent and received before, as long
      as the number is fresh. */
  lemma ServerOpensClient(keys: Keys, r: Record, seqNo: u32, serverSeq: u32, last: Option<u32>, padding: seq<Octet>)
    requires |r.payload| <= 65519 && Fresh(last, seqNo)
    ensures var raw := SealRecord(CryptoState(keys, C2S, seqNo, None), r.msgType, r.sessionId, r.payload).1;
            var d := Decode(raw + padding);
            && d.Ok? && d.value.msgType == r.msgType && d.value.sessionId == r.sessionId
            && OpenRecord(CryptoState(keys, S2C, serverSeq, last), d.value)
               == (CryptoState(keys, S2C, serverSeq, Some(seqNo)), Some(r.payload))
  {
    SealedRecordDecodes(keys, C2S, seqNo, r, padding);
  }

  /** And the client what the server seals. */
  lemma ClientOpensServer(keys: Keys, r: Record, seqNo: u32, clientSeq: u32, last: Option<u32>, padding: seq<Octet>)
    requires |r.payload| <= 65519 && Fresh(last, seqNo)
    ensures var raw := SealRecord(CryptoState(keys, S2C, seqNo, None), r.msgType, r.sessionId, r.payload).1;
            var d := Decode(raw + padding);
            && d.Ok? && d.value.msgType == r.msgType && d.value.sessionId == r.sessionId
            && OpenRecord(CryptoState(keys, C2S, clientSeq, last), d.value)
               == (CryptoState(keys, C2S, clientSeq, Some(seqNo)), Some(r.payload))
  {
    SealedRecordDecodes(keys, S2C, seqNo, r, padding);
  }

  lemma SealedRecordDecodes(keys: Keys, dir: Dir, seqNo: u32, r: Record, padding: seq<Octet>)
    requires |r.payload| <= 65519
    ensures var raw := SealRecord(CryptoState(keys, dir, seqNo, None), r.msgType, r.sessionId, r.payload).1;
            var d := Decode(raw + padding);
            && d.Ok? && d.value.msgType == r.msgType && d.value.sessionId == r.sessionId && d.value.seqNo == seqNo
            && Open(keys.Key(dir), keys.Nonce(seqNo), HeaderOf(d.value), d.value.payload) == Some(r.payload)
  {
    var box := RecordBox(keys, dir, seqNo, r.msgType, r.sessionId, r.payload);
    assert [] + Seal(box) == Seal(box);
    SealedFrameDecodes(r.msgType, r.sessionId, seqNo, [], box, padding);
    OpenExactly(box.key, box.nonce, box.aad, Seal(box), r.payload);
  }

  /** Nothing one side seals under session keys is under a key of the other side, of another
      session, or of any handshake; so neither side ever opens its own frames. */
  lemma SessionKeysApart(master: MasterKey, s1: u64, c1: u64, s2: u64, c2: u64, d1: Dir, d2: Dir)
    ensures SessionKeys(master, s1, c1).Key(d1) == SessionKeys(master, s2, c2).Key(d2)
            <==> d1 == d2 && s1 == s2 && c1 == c2
    ensures SessionKeys(master, s1, c1).Key(d1) != HandshakeKeys(master, s2).Key(d2)
    ensures SessionKeys(master, s1, c1).Key(d1) != PreSharedKey(master)
    ensures HandshakeKeys(master, s1).Key(d1) == HandshakeKeys(master, s2).Key(d2) <==> d1 == d2 && s1 == s2
    ensures HandshakeKeys(master, s1).Key(d1) != PreSharedKey(master)
  {
  }

  lemma BoxesOfSidesApart(master: MasterKey, serverNonce: u64, clientNonce: u64, q1: u32, q2: u32, r1: Record, r2: Record)
    ensures var keys := SessionKeys(master, serverNonce, clientNonce);
            RecordBox(keys, C2S, q1, r1.msgType, r1.sessionId, r1.payload).key
            != RecordBox(keys, S2C, q2, r2.msgType, r2.sessionId, r2.payload).key
  {
    SessionKeysApart(master, serverNonce, clientNonce, serverNonce, clientNonce, C2S, S2C);
  }

  /** A frame one side sealed is never opened by that side, however it comes back to it. */
  lemma OwnFramesRefused(master: MasterKey, serverNonce: u64, clientNonce: u64, s: CryptoState, seqNo: u32,
                         r: Record, f: Frame)
    requires s.keys == SessionKeys(master, serverNonce, clientNonce)
    requires f.payload == Seal(RecordBox(s.keys, s.txDir, seqNo, r.msgType, r.sessionId, r.payload))
    ensures OpenRecord(s, f) == (s, None)
  {
    SessionKeysApart(master, serverNonce, clientNonce, serverNonce, clientNonce, C2S, S2C);
    assert f.payload[0] == Cipher(RecordBox(s.keys, s.txDir, seqNo, r.msgType, r.sessionId, r.payload), 0);
  }

  // ---------------------------------------------------------------- whole runs

  lemma {:induction false} RunConsistent(keys: Keys, dir: Dir, events: seq<Event>) returns (order: seq<nat>)
    requires PossibleRun(Established(keys, dir), events)
    requires |Run(Established(keys, dir), events).sent| <= 0x8000_0001
    ensures Consistent(Run(Established(keys, dir), events), keys, dir, order)
  {
    if events == [] {
      order := [];
    } else {
      var before, e := events[..|events| - 1], events[|events| - 1];
      order := RunConsistent(keys, dir, before);
      var l := Run(Established(keys, dir), before);
      match e
      case Send(r) => SendStep(l, keys, dir, order, r);
      case Deliver(raw) => order := DeliverStep(l, keys, dir, order, raw);
    }
  }

  /** End to end: over any link, as long as at most 2^31 + 1 frames were sealed, what `open`
      returned is an in-order, duplicate-free subsequence of what `seal` was given. */
  lemma ReturnedInOrder(keys: Keys, dir: Dir, events: seq<Event>)
    requires PossibleRun(Established(keys, dir), events)
    requires |Run(Established(keys, dir), events).sent| <= 0x8000_0001
    ensures var l := Run(Established(keys, dir), events); InOrderSubsequence(l.got, l.sent)
  {
    var order := RunConsistent(keys, dir, events);
  }

  /** After any run with at most 2^31 frames sealed, the i-th frame, delivered with any padding,
      is returned exactly when i exceeds every index returned before; otherwise the delivery
      changes nothing. */
  lemma ReturnedExactlyWhenNewer(keys: Keys, dir: Dir, events: seq<Event>, i: nat, padding: seq<Octet>)
    returns (order: seq<nat>)
    requires PossibleRun(Established(keys, dir), events)
    requires var l := Run(Established(keys, dir), events);
             && |l.sent| <= 0x8000_0000 && i < |l.sent| && |l.sent[i].payload| <= 65519
    ensures var l := Run(Established(keys, dir), events);
            var l' := Step(l, Deliver(WireAt(l, i) + padding));
            && Embeds(order, l.got, l.sent)
            && l' == if forall k :: 0 <= k < |order| ==> order[k] < i
                     then l.(rx := l.rx.(last := Some(i % TWO32)), got := l.got + [l.sent[i]])
                     else l
  {
    order := RunConsistent(keys, dir, events);
    var l := Run(Established(keys, dir), events);
    DeliverSealed(l, i, padding);
    if order != [] {
      WindowRefinesCounter(order[|order| - 1], i);
    }
  }

  /** A delivery that carries no sealed frame leaves the receiver unchanged. */
  lemma ForgeryIgnored(l: Link, raw: seq<Octet>)
    requires Paired(l) && Possible(l, Deliver(raw))
    requires Decode(raw).Ok? ==>
               forall i: nat :: i < |l.sent| ==> Decode(raw).value.payload != Seal(BoxAt(l, i))
    ensures Step(l, Deliver(raw)) == l
  {
    var d := Decode(raw);
    if d.Ok? && Opened(l, d.value).Some? {
      var i := OpenedWasSent(l, d.value);
    }
  }

  // ---------------------------------------------------------------- the bounds are exact

  /** Two sealed frames share their AEAD nonce exactly when their indices agree modulo 2^32:
      never within the first 2^32 frames of a direction. */
  lemma SessionNoncesDistinct(l: Link, i: nat, j: nat)
    requires i < |l.sent| && j < |l.sent|
    ensures BoxAt(l, i).nonce == BoxAt(l, j).nonce <==> i % TWO32 == j % TWO32
    ensures |l.sent| <= TWO32 && i != j ==> BoxAt(l, i).nonce != BoxAt(l, j).nonce
  {
    var a, b := i % TWO32, j % TWO32;
    NonceInjective(l.tx.keys, a, b);
    if |l.sent| <= TWO32 {
      assert a == i && b == j;
    }
  }

  const FIRST: Record := Record(TYPE_KEEPALIVE, 1, [])
  const LATER: Record := Record(TYPE_DATA, 1, [])

  function Sends(n: nat): seq<Event> {
    seq(n, k => Send(if k == 0 then FIRST else LATER))
  }

  lemma {:induction false} RunSends(keys: Keys, dir: Dir, n: nat)
    ensures PossibleRun(Established(keys, dir), Sends(n))
    ensures var l := Run(Established(keys, dir), Sends(n));
            && Consistent(l, keys, dir, []) && l.rx == Established(keys, dir).rx
            && |l.sent| == n && forall k :: 0 <= k < n ==> l.sent[k] == if k == 0 then FIRST else LATER
  {
    hide SealRecord;
    if n > 0 {
      RunSends(keys, dir, n - 1);
      assert Sends(n)[..n - 1] == Sends(n - 1);
      SendStep(Run(Established(keys, dir), Sends(n - 1)), keys, dir, [], Sends(n)[n - 1].record);
    }
  }

  lemma WirePossible(l: Link, i: nat)
    requires i < |l.sent|
    ensures Possible(l, Deliver(WireAt(l, i) + []))
  {
    assert WasSealed(l, BoxAt(l, i));
  }

  lemma RunExtended(l: Link, events: seq<Event>, e: Event)
    requires PossibleRun(l, events) && Possible(Run(l, events), e)
    ensures PossibleRun(l, events + [e])
    ensures Run(l, events + [e]) == Step(Run(l, events), e)
  {
    assert (events + [e])[..|events|] == events;
  }

  lemma FirstAfterLater(sent: seq<Record>)
    requires forall k :: 0 <= k < |sent| ==> sent[k] == if k == 0 then FIRST else LATER
    ensures !InOrderSubsequence([LATER, FIRST], sent)
  {
    var got := [LATER, FIRST];
    forall order ensures !Embeds(order, got, sent) {
      if |order| == 2 && order[0] < order[1] < |sent| {
        assert sent[order[1]] == LATER && got[1] == FIRST;
      }
    }
  }

  /** One frame more and the guarantee is gone: for every n > 2^31 + 1 there is a run sealing n
      frames in which the first frame is returned after a later one. */
  lemma OrderBoundTight(keys: Keys, dir: Dir, n: nat) returns (events: seq<Event>)
    requires n > 0x8000_0001
    ensures PossibleRun(Established(keys, dir), events)
    ensures var l := Run(Established(keys, dir), events);
            |l.sent| == n && !InOrderSubsequence(l.got, l.sent)
  {
    var start := Established(keys, dir);
    RunSends(keys, dir, n);
    var l0 := Run(start, Sends(n));
    DeliverSealed(l0, 0x8000_0001, []);
    WirePossible(l0, 0x8000_0001);
    var e1 := Sends(n) + [Deliver(WireAt(l0, 0x8000_0001) + [])];
    RunExtended(start, Sends(n), e1[n]);
    var l1 := Run(start, e1);
    ReplayRefusedExactlyWithin(0, 0x8000_0001);
    DeliverSealed(l1, 0, []);
    WirePossible(l1, 0);
    events := e1 + [Deliver(WireAt(l1, 0) + [])];
    RunExtended(start, e1, events[n + 1]);
    assert Run(start, events).got == [LATER, FIRST];
    FirstAfterLater(l0.sent);
  }
}
