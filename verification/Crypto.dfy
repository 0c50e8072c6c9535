/** The Terrain key schedule, the sealing of frames, the replay window and the record layer's
    per-session cipher state.  The AEAD has the interface of section 2.8 of RFC 8439 and is
    ideal: a ciphertext opens only under the key, nonce and associated data that sealed it. */
module Crypto {
  import opened Octets
  import opened Frame

  const TAG_LEN: nat := 16
  const DISCOVER_NONCE_LEN: nat := 12

  const HS_AUTH_REQ: u32 := 0
  const HS_AUTH_ACK: u32 := 1
  const HS_AUTH_NACK: u32 := 2
  const HS_RESP: u32 := 3

  // ---------------------------------------------------------------- AEAD

  function Seal(box: Box): (r: seq<Octet>)
    ensures |r| == |box.plain| + TAG_LEN
  {
    seq(|box.plain| + TAG_LEN, i requires 0 <= i => Cipher(box, i))
  }

  function Open(key: Digest, nonce: seq<Octet>, aad: seq<byte>, sealed: seq<Octet>): Option<seq<Octet>> {
    if |sealed| < TAG_LEN || !sealed[0].Cipher? then None else
    var box := sealed[0].box;
    if box.key == key && box.nonce == nonce && box.aad == aad && sealed == Seal(box)
    then Some(box.plain) else None
  }

  /** A ciphertext opens to `plain` exactly when it is the seal of `plain` under these terms. */
  lemma OpenExactly(key: Digest, nonce: seq<Octet>, aad: seq<byte>, sealed: seq<Octet>, plain: seq<Octet>)
    ensures Open(key, nonce, aad, sealed) == Some(plain)
            <==> sealed == Seal(Box(key, nonce, aad, plain))
  {
    if sealed == Seal(Box(key, nonce, aad, plain)) {
      assert sealed[0] == Cipher(Box(key, nonce, aad, plain), 0);
    }
  }

  // ---------------------------------------------------------------- key schedule

  datatype Dir = C2S | S2C {
    function Rx(): Dir {
      if C2S? then S2C else C2S
    }
  }

  /** The 32 bytes of a digest, and the 8-byte salt cut from one. */
  function DigestOctets(d: Digest): (r: seq<Octet>)
    ensures |r| == 32
  {
    seq(32, i requires 0 <= i => Hash(d, i))
  }

  function SaltOctets(d: Digest): (r: seq<Octet>)
    ensures |r| == 8
  {
    DigestOctets(d)[..8]
  }

  /** One key per direction and a salt: the shape of both handshake and session keys. */
  datatype Keys = Keys(c2s: Digest, s2c: Digest, salt: seq<Octet>) {
    function Key(dir: Dir): Digest {
      if dir.C2S? then c2s else s2c
    }

    /** salt(8) || counter(4) */
    function Nonce(counter: u32): seq<Octet> {
      salt + Clears(Be32(counter))
    }
  }

  function PreSharedKey(master: MasterKey): Digest {
    Digest(DiscoverKey, master, 0, 0)
  }

  function HandshakeKeys(master: MasterKey, serverNonce: u64): Keys {
    Keys(Digest(HandshakeC2S, master, serverNonce, 0),
         Digest(HandshakeS2C, master, serverNonce, 0),
         SaltOctets(Digest(HandshakeSalt, master, serverNonce, 0)))
  }

  function SessionKeys(master: MasterKey, serverNonce: u64, clientNonce: u64): Keys {
    Keys(Digest(SessionC2S, master, serverNonce, clientNonce),
         Digest(SessionS2C, master, serverNonce, clientNonce),
         SaltOctets(Digest(SessionSalt, master, serverNonce, clientNonce)))
  }

  function AuthProofC2S(master: MasterKey, serverNonce: u64, clientNonce: u64): (r: seq<Octet>)
    ensures |r| == 32
  {
    DigestOctets(Digest(ProofC2S, master, serverNonce, clientNonce))
  }

  function AuthProofS2C(master: MasterKey, serverNonce: u64, clientNonce: u64): (r: seq<Octet>)
    ensures |r| == 32
  {
    DigestOctets(Digest(ProofS2C, master, serverNonce, clientNonce))
  }

  /** Equal proofs come from equal nonces. */
  lemma ProofInjective(master: MasterKey, s1: u64, c1: u64, s2: u64, c2: u64)
    requires AuthProofS2C(master, s1, c1) == AuthProofS2C(master, s2, c2)
    ensures s1 == s2 && c1 == c2
  {
    assert AuthProofS2C(master, s1, c1)[0] == Hash(Digest(ProofS2C, master, s1, c1), 0);
    assert AuthProofS2C(master, s2, c2)[0] == Hash(Digest(ProofS2C, master, s2, c2), 0);
  }

  /** Under one key set, nonces collide exactly when the 32-bit counters do. */
  lemma NonceInjective(keys: Keys, i: u32, j: u32)
    ensures keys.Nonce(i) == keys.Nonce(j) <==> i == j
  {
    if keys.Nonce(i) == keys.Nonce(j) {
      var n := |keys.salt|;
      assert keys.Nonce(i)[n..] == Clears(Be32(i)) && keys.Nonce(j)[n..] == Clears(Be32(j));
      ValuesOfClears(Be32(i));
      ValuesOfClears(Be32(j));
      Be32RoundTrip(i);
      Be32RoundTrip(j);
    }
  }

  // ---------------------------------------------------------------- sealed frames

  function SealedLen(plain: seq<Octet>): u16 {
    (|plain| + TAG_LEN) % 0x1_0000
  }

  /** The header a receiver rebuilds from a decoded frame. */
  function HeaderOf(f: Frame): seq<byte> {
    EncodeHeader(f.msgType, f.sessionId, f.seqNo, f.len)
  }

  function HandshakeBox(hk: Keys, dir: Dir, msgType: byte, sessionId: u32, counter: u32,
                        prefixLen: nat, plain: seq<Octet>): Box {
    Box(hk.Key(dir), hk.Nonce(counter),
        EncodeHeader(msgType, sessionId, 0, (prefixLen + |plain| + TAG_LEN) % 0x1_0000), plain)
  }

  /** header || prefix || ciphertext; the prefix is empty for all frames but RESP. */
  function SealPrefixed(hk: Keys, dir: Dir, msgType: byte, sessionId: u32, counter: u32,
                        prefix: seq<byte>, plain: seq<Octet>): seq<Octet> {
    var box := HandshakeBox(hk, dir, msgType, sessionId, counter, |prefix|, plain);
    Clears(box.aad) + (Clears(prefix) + Seal(box))
  }

  function SealFrame(hk: Keys, dir: Dir, msgType: byte, sessionId: u32, counter: u32,
                     plain: seq<Octet>): seq<Octet> {
    SealPrefixed(hk, dir, msgType, sessionId, counter, [], plain)
  }

  function OpenFrame(hk: Keys, dir: Dir, counter: u32, f: Frame): Option<seq<Octet>> {
    Open(hk.Key(dir), hk.Nonce(counter), HeaderOf(f), f.payload)
  }

  function OpenPrefixed(hk: Keys, dir: Dir, counter: u32, f: Frame, prefixLen: nat): Option<seq<Octet>> {
    if |f.payload| < prefixLen + TAG_LEN then None else
    Open(hk.Key(dir), hk.Nonce(counter), HeaderOf(f), f.payload[prefixLen..])
  }

  function DiscoverBox(master: MasterKey, sessionId: u32, nonce: seq<byte>, plain: seq<Octet>): Box {
    Box(PreSharedKey(master), Clears(nonce),
        EncodeHeader(TYPE_DISCOVER, sessionId, 0,
                     (DISCOVER_NONCE_LEN + |plain| + TAG_LEN) % 0x1_0000), plain)
  }

  function SealDiscover(master: MasterKey, sessionId: u32, nonce: seq<byte>, plain: seq<Octet>): seq<Octet> {
    var box := DiscoverBox(master, sessionId, nonce, plain);
    Clears(box.aad) + (Clears(nonce) + Seal(box))
  }

  function OpenDiscoverFrame(master: MasterKey, f: Frame): Option<seq<Octet>> {
    if |f.payload| < DISCOVER_NONCE_LEN + TAG_LEN then None else
    Open(PreSharedKey(master), f.payload[..DISCOVER_NONCE_LEN], HeaderOf(f),
         f.payload[DISCOVER_NONCE_LEN..])
  }

  /** Any header, prefix and ciphertext whose length fits the header reach the peer as sent,
      through any link padding. */
  lemma SealedFrameDecodes(msgType: byte, sessionId: u32, seqNo: u32, prefix: seq<Octet>, box: Box,
                           padding: seq<Octet>)
    requires |prefix| + |box.plain| + TAG_LEN <= 0xFFFF
    requires box.aad == EncodeHeader(msgType, sessionId, seqNo, |prefix| + |box.plain| + TAG_LEN)
    ensures Decode(Clears(box.aad) + (prefix + Seal(box)) + padding)
            == Ok(Frame(VERSION, msgType, sessionId, seqNo, |prefix| + |box.plain| + TAG_LEN,
                        prefix + Seal(box)))
  {
    hide Decode, EncodeHeader, Clears, Seal;
    var body := prefix + Seal(box);
    assert |Seal(box)| == |box.plain| + TAG_LEN;
    assert Clears(box.aad) + body + padding == Clears(box.aad) + (body + padding);
    DecodeHeaderAndBody(msgType, sessionId, seqNo, |body|, body + padding);
    assert (body + padding)[..|body|] == body;
  }

  /** A sealed handshake frame opens at the peer to what was sealed. */
  lemma SealPrefixedOpens(hk: Keys, dir: Dir, msgType: byte, sessionId: u32, counter: u32,
                          prefix: seq<byte>, plain: seq<Octet>, padding: seq<Octet>) returns (f: Frame)
    requires |prefix| + |plain| + TAG_LEN <= 0xFFFF
    ensures Decode(SealPrefixed(hk, dir, msgType, sessionId, counter, prefix, plain) + padding) == Ok(f)
    ensures f.msgType == msgType && f.sessionId == sessionId
    ensures |prefix| + TAG_LEN <= |f.payload| && f.payload[..|prefix|] == Clears(prefix)
    ensures OpenPrefixed(hk, dir, counter, f, |prefix|) == Some(plain)
  {
    var box := HandshakeBox(hk, dir, msgType, sessionId, counter, |prefix|, plain);
    SealedFrameDecodes(msgType, sessionId, 0, Clears(prefix), box, padding);
    f := Frame(VERSION, msgType, sessionId, 0, |prefix| + |plain| + TAG_LEN, Clears(prefix) + Seal(box));
    assert f.payload[|prefix|..] == Seal(box);
    assert HeaderOf(f) == box.aad;
    OpenExactly(box.key, box.nonce, box.aad, Seal(box), plain);
  }

  lemma SealFrameOpens(hk: Keys, dir: Dir, msgType: byte, sessionId: u32, counter: u32,
                       plain: seq<Octet>, padding: seq<Octet>) returns (f: Frame)
    requires |plain| + TAG_LEN <= 0xFFFF
    ensures Decode(SealFrame(hk, dir, msgType, sessionId, counter, plain) + padding) == Ok(f)
    ensures f.msgType == msgType && f.sessionId == sessionId
    ensures OpenFrame(hk, dir, counter, f) == Some(plain)
  {
    f := SealPrefixedOpens(hk, dir, msgType, sessionId, counter, [], plain, padding);
    assert f.payload[0..] == f.payload;
  }

  lemma SealDiscoverOpens(master: MasterKey, nonce: seq<byte>, plain: seq<Octet>, padding: seq<Octet>)
    returns (f: Frame)
    requires |nonce| == DISCOVER_NONCE_LEN
    requires DISCOVER_NONCE_LEN + |plain| + TAG_LEN <= 0xFFFF
    ensures Decode(SealDiscover(master, 0, nonce, plain) + padding) == Ok(f) && f.msgType == TYPE_DISCOVER
    ensures OpenDiscoverFrame(master, f) == Some(plain)
  {
    var box := DiscoverBox(master, 0, nonce, plain);
    SealedFrameDecodes(TYPE_DISCOVER, 0, 0, Clears(nonce), box, padding);
    f := Frame(VERSION, TYPE_DISCOVER, 0, 0, DISCOVER_NONCE_LEN + |plain| + TAG_LEN,
               Clears(nonce) + Seal(box));
    assert f.payload[..DISCOVER_NONCE_LEN] == Clears(nonce);
    assert f.payload[DISCOVER_NONCE_LEN..] == Seal(box);
    assert HeaderOf(f) == box.aad;
    OpenExactly(box.key, box.nonce, box.aad, Seal(box), plain);
  }

  // ---------------------------------------------------------------- replay window

  /** `a.wrapping_sub(b) as i32` on u32 operands. */
  function WrappingDiff(a: u32, b: u32): int {
    var d := (a - b) % TWO32;
    if d < 0x8000_0000 then d else d - TWO32
  }

  predicate Fresh(last: Option<u32>, seqNo: u32) {
    last.None? || WrappingDiff(seqNo, last.value) > 0
  }

  class ReplayWindow {
    var last: Option<u32>

    constructor ()
      ensures last == None
    {
      last := None;
    }

    /** Accepts, and then remembers, exactly the numbers fresh for the window; a refused number
        leaves the window as it was. */
    method Accept(seqNo: u32) returns (ok: bool)
      modifies this
      ensures ok == Fresh(old(last), seqNo)
      ensures last == if ok then Some(seqNo) else old(last)
    {
      if last.Some? {
        var diff := WrappingDiff(seqNo, last.value);
        if diff <= 0 {
          return false;
        }
      }
      last := Some(seqNo);
      return true;
    }
  }

  /** The window on 32-bit numbers against the unbounded frame indices they abbreviate: a frame
      is fresh exactly when it is ahead by less than half the number circle, modulo 2^32. */
  lemma WindowOnIndices(last: nat, index: nat)
    ensures Fresh(Some(last % TWO32), index % TWO32)
            <==> 0 < (index - last) % TWO32 < 0x8000_0000
  {
    assert (index % TWO32 - last % TWO32) % TWO32 == (index - last) % TWO32;
  }

  /** While true indices stay less than 2^31 apart the window is an unbounded counter. */
  lemma WindowRefinesCounter(last: nat, index: nat)
    requires -0x8000_0000 < index - last < 0x8000_0000
    ensures Fresh(Some(last % TWO32), index % TWO32) <==> index > last
  {
    WindowOnIndices(last, index);
  }

  /** A frame accepted once is refused for as long as the window is at most 2^31 past it, and
      one step further it would be accepted again. */
  lemma ReplayRefusedExactlyWithin(index: nat, last: nat)
    requires index <= last < index + TWO32
    ensures Fresh(Some(last % TWO32), index % TWO32) <==> last - index > 0x8000_0000
  {
    WindowOnIndices(last, index);
  }

  // ---------------------------------------------------------------- session cipher

  /** The value of a `SessionCrypto`: keys, transmit direction and counter, receive window. */
  datatype CryptoState = CryptoState(keys: Keys, txDir: Dir, txSeq: u32, last: Option<u32>)

  function RecordBox(keys: Keys, dir: Dir, seqNo: u32, msgType: byte, sessionId: u32, payload: seq<Octet>): Box {
    Box(keys.Key(dir), keys.Nonce(seqNo), EncodeHeader(msgType, sessionId, seqNo, SealedLen(payload)), payload)
  }

  function SealRecord(s: CryptoState, msgType: byte, sessionId: u32, payload: seq<Octet>): (CryptoState, seq<Octet>) {
    var box := RecordBox(s.keys, s.txDir, s.txSeq, msgType, sessionId, payload);
    (s.(txSeq := (s.txSeq + 1) % TWO32), Clears(box.aad) + Seal(box))
  }

  function OpenRecord(s: CryptoState, f: Frame): (CryptoState, Option<seq<Octet>>) {
    var plain := Open(s.keys.Key(s.txDir.Rx()), s.keys.Nonce(f.seqNo), HeaderOf(f), f.payload);
    if plain.None? then (s, None)
    else if Fresh(s.last, f.seqNo) then (s.(last := Some(f.seqNo)), plain)
    else (s, None)
  }

  class SessionCrypto {
    const keys: Keys
    const txDir: Dir
    var txSeq: u32
    const rx: ReplayWindow

    ghost function State(): CryptoState
      reads this, rx
    {
      CryptoState(keys, txDir, txSeq, rx.last)
    }

    constructor (keys: Keys, txDir: Dir)
      ensures State() == CryptoState(keys, txDir, 0, None)
      ensures fresh(rx)
    {
      this.keys := keys;
      this.txDir := txDir;
      txSeq := 0;
      rx := new ReplayWindow();
    }

    method SealPayload(msgType: byte, sessionId: u32, payload: seq<Octet>) returns (raw: seq<Octet>)
      modifies this
      ensures (State(), raw) == SealRecord(old(State()), msgType, sessionId, payload)
    {
      var seqNo := txSeq;
      txSeq := (txSeq + 1) % TWO32;
      var header := EncodeHeader(msgType, sessionId, seqNo, SealedLen(payload));
      var body := Seal(Box(keys.Key(txDir), keys.Nonce(seqNo), header, payload));
      raw := Clears(header) + body;
    }

    /** A frame that fails authentication never reaches the window. */
    method OpenPayload(f: Frame) returns (plain: Option<seq<Octet>>)
      modifies rx
      ensures (State(), plain) == OpenRecord(old(State()), f)
    {
      var result := Open(keys.Key(txDir.Rx()), keys.Nonce(f.seqNo), HeaderOf(f), f.payload);
      if result.None? {
        return None;
      }
      var ok := rx.Accept(f.seqNo);
      return if ok then result else None;
    }
  }
}
