/** All handshakes of one psk at once: any number of clients and server peers on a network that
    drops, repeats, reorders, cuts, splices and invents frames.  The network produces octets of a
    ciphertext under a handshake key only from boxes the parties sealed.  Random draws are fresh.

    There may be insiders: holders of the psk that follow no protocol and seal whatever they like
    toward a server, any DISCOVER and any AUTH_REQ, with right and wrong proofs. */
module HandshakeRuns {
  import opened Octets
  import opened Frame
  import opened Crypto
  import opened Handshake

  datatype Config = Config(master: MasterKey, deviceName: Text, ports: seq<u16>, insiders: bool)

  /** An AUTH_REQ a client sealed: who, while discovering under which id, with which nonce. */
  datatype Request = Request(client: nat, discoverId: u64, clientNonce: u64, user: Text)

  /** What `verify_auth` returned with an acceptance, and to which peer. */
  datatype Acceptance = Acceptance(peer: nat, sid: u32, clientNonce: u64, user: Text)

  /** The parties, every box sealed so far, the draws, and the history of the run: what each
      DISCOVER nonce carried, the client behind each discover id, and per server nonce the
      attempt it was minted for, the AUTH_REQ, the acceptance and the refusal under it; and the
      server nonces in the order of their verdicts. */
  datatype World = World(
    clients: map<nat, ClientPhase>, servers: map<nat, ServerState>,
    sealed: set<Box>, drawn: set<u64>,
    discovers: map<seq<byte>, (u64, Text, Option<Text>)>, owner: map<u64, nat>,
    minted: map<u64, u64>, requests: map<u64, Request>, accepts: map<u64, Acceptance>,
    nacks: map<u64, Text>, spent: seq<u64>)

  const START: World := World(map[], map[], {}, {}, map[], map[], map[], map[], map[], map[], [])

  datatype Event =
    | Discover(client: nat, name: Text, token: Option<Text>, discoverId: u64, nonce: seq<byte>)
    | RespArrives(client: nat, raw: seq<Octet>, user: Text, clientNonce: u64)
    | AuthReplyArrives(client: nat, raw: seq<Octet>)
    | DiscoverArrives(peer: nat, raw: seq<Octet>, serverNonce: u64)
    | AuthReqArrives(peer: nat, raw: seq<Octet>)
    | Lockout(peer: nat, reason: Text)
    | Forget(peer: nat)

  // ---------------------------------------------------------------- steps

  /** The boxes whose ciphertext octets occur in a frame. */
  function BoxesIn(raw: seq<Octet>): set<Box> {
    set k | 0 <= k < |raw| && raw[k].Cipher? :: raw[k].box
  }

  function Emit(w: World, raw: seq<Octet>): World {
    w.(sealed := w.sealed + BoxesIn(raw))
  }

  /** A program text in the ASCII range. */
  function Ascii(s: string): (r: Text)
    requires forall i :: 0 <= i < |s| ==> s[i] < 128 as char
    ensures |r| == |s|
  {
    if s == [] then [] else
    var rest: seq<byte> := Ascii(s[1..]);
    var r := [s[0] as int] + rest;
    assert r[1..] == rest;
    r
  }

  const AUTH_FAILED: Text := Ascii("authentication failed")

  function OnDiscover(cfg: Config, w: World, e: Event): World
    requires e.Discover?
  {
    var (phase, raw) := DiscoverFrame(e.name, e.token, cfg.master, e.discoverId, e.nonce);
    Emit(w, raw).(clients := w.clients[e.client := phase], drawn := w.drawn + {e.discoverId},
                  discovers := w.discovers[e.nonce := (e.discoverId, e.name, e.token)],
                  owner := w.owner[e.discoverId := e.client])
  }

  function OnRespFrame(cfg: Config, w: World, e: Event, f: Frame): World
    requires e.RespArrives? && e.client in w.clients
  {
    var phase := w.clients[e.client];
    var (phase', reply) := OnResp(phase, f, e.user, cfg.master, e.clientNonce);
    if reply.None? || !phase.Discovering? || !phase'.AwaitAuth? then w else
    Emit(w, reply.value.1).(
      clients := w.clients[e.client := phase'], drawn := w.drawn + {e.clientNonce},
      requests := w.requests[phase'.serverNonce :=
                             Request(e.client, phase.discoverId, e.clientNonce, e.user)])
  }

  function OnAuthReply(cfg: Config, w: World, e: Event, f: Frame): World
    requires e.AuthReplyArrives? && e.client in w.clients
  {
    w.(clients := w.clients[e.client := OnAuthFrame(w.clients[e.client], f, cfg.master)])
  }

  function OnDiscoverFrame(cfg: Config, w: World, e: Event, discoverId: u64): World
    requires e.DiscoverArrives?
  {
    var s := if e.peer in w.servers then w.servers[e.peer] else NEW_SERVER;
    var (s', raw) := BeginDiscover(s, discoverId, cfg.deviceName, cfg.ports, cfg.master, e.serverNonce);
    if s'.pending.None? then w else
    Emit(w, raw).(servers := w.servers[e.peer := s'], drawn := w.drawn + {e.serverNonce},
                  minted := w.minted[s'.pending.value.serverNonce := discoverId])
  }

  function OnAuthReqFrame(cfg: Config, w: World, e: Event, f: Frame): World
    requires e.AuthReqArrives? && e.peer in w.servers
  {
    var s := w.servers[e.peer];
    var (s', r) := VerifyAuth(s, f, cfg.master);
    var w' := w.(servers := w.servers[e.peer := s']);
    if s.pending.None? then w else
    var serverNonce := s.pending.value.serverNonce;
    match r
    case Unauthentic => w'
    case Rejected(hkey) =>
      Emit(w', NackFrame(hkey, AUTH_FAILED)).(
        nacks := w.nacks[serverNonce := AUTH_FAILED], spent := w.spent + [serverNonce])
    case Accepted(sid, keys, proof, hkey, user) =>
      Emit(w', AckFrame(hkey, sid, proof)).(
        accepts := w.accepts[serverNonce := Acceptance(e.peer, sid, ClientNonceOf(keys), user)],
        spent := w.spent + [serverNonce])
  }

  /** The client nonce the session keys were derived from. */
  function ClientNonceOf(keys: Keys): u64 {
    keys.c2s.clientNonce
  }

  function OnLockout(cfg: Config, w: World, e: Event): World
    requires e.Lockout? && e.peer in w.servers
  {
    var (s', taken) := TakeServerNonce(w.servers[e.peer]);
    var w' := w.(servers := w.servers[e.peer := s']);
    if taken.None? then w' else
    Emit(w', NackFrame(HandshakeKeys(cfg.master, taken.value), e.reason)).(
      nacks := w.nacks[taken.value := e.reason], spent := w.spent + [taken.value])
  }

  function Step(cfg: Config, w: World, e: Event): World {
    match e
    case Discover(_, _, _, _, _) => OnDiscover(cfg, w, e)
    case RespArrives(c, raw, _, _) =>
      var d := Decode(raw);
      if c in w.clients && d.Ok? && d.value.msgType == TYPE_RESP then OnRespFrame(cfg, w, e, d.value) else w
    case AuthReplyArrives(c, raw) =>
      var d := Decode(raw);
      if c in w.clients && d.Ok? then OnAuthReply(cfg, w, e, d.value) else w
    case DiscoverArrives(_, raw, _) =>
      var d := Decode(raw);
      if d.Err? || d.value.msgType != TYPE_DISCOVER then w else
      var heard := OpenDiscover(d.value, cfg.master);
      if heard.None? then w else OnDiscoverFrame(cfg, w, e, heard.value.0)
    case AuthReqArrives(m, raw) =>
      var d := Decode(raw);
      if m in w.servers && d.Ok? && d.value.msgType == TYPE_AUTH_REQ
      then OnAuthReqFrame(cfg, w, e, d.value) else w
    case Lockout(m, _) => if m in w.servers then OnLockout(cfg, w, e) else w
    case Forget(m) => w.(servers := w.servers - {m})
  }

  /** The keys only honest parties seal under: the server's, and without insiders the clients' too. */
  predicate Guarded(cfg: Config, key: Digest) {
    && key.master == cfg.master
    && (key.purpose.HandshakeS2C? || (!cfg.insiders && (key.purpose.DiscoverKey? || key.purpose.HandshakeC2S?)))
  }

  predicate Known(cfg: Config, w: World, octets: seq<Octet>) {
    forall k :: 0 <= k < |octets| && octets[k].Cipher? && Guarded(cfg, octets[k].box.key)
      ==> octets[k].box in w.sealed
  }

  /** Fresh draws, and frames the network can produce. */
  predicate Possible(cfg: Config, w: World, e: Event) {
    match e
    case Discover(_, _, _, discoverId, nonce) =>
      discoverId !in w.drawn && |nonce| == DISCOVER_NONCE_LEN && nonce !in w.discovers
    case RespArrives(_, raw, _, clientNonce) => Known(cfg, w, raw) && clientNonce !in w.drawn
    case AuthReplyArrives(_, raw) => Known(cfg, w, raw)
    case DiscoverArrives(_, raw, serverNonce) => Known(cfg, w, raw) && serverNonce !in w.drawn
    case AuthReqArrives(_, raw) => Known(cfg, w, raw)
    case Lockout(_, _) => true
    case Forget(_) => true
  }

  function Run(cfg: Config, events: seq<Event>): World {
    if events == [] then START else Step(cfg, Run(cfg, events[..|events| - 1]), events[|events| - 1])
  }

  predicate PossibleRun(cfg: Config, events: seq<Event>) {
    events == [] ||
    (PossibleRun(cfg, events[..|events| - 1])
     && Possible(cfg, Run(cfg, events[..|events| - 1]), events[|events| - 1]))
  }

  // ---------------------------------------------------------------- the history explains every box

  function DiscoverBoxOf(cfg: Config, nonce: seq<byte>, d: (u64, Text, Option<Text>)): Box {
    DiscoverBox(cfg.master, 0, nonce, EncodeDiscover(d.0, d.1, d.2))
  }

  function RespBox(cfg: Config, serverNonce: u64, discoverId: u64): Box {
    HandshakeBox(HandshakeKeys(cfg.master, serverNonce), S2C, TYPE_RESP, 0, HS_RESP, 8,
                 EncodeResp(Resp(discoverId, cfg.deviceName, cfg.ports)))
  }

  function RequestBox(cfg: Config, serverNonce: u64, r: Request): Box {
    HandshakeBox(HandshakeKeys(cfg.master, serverNonce), C2S, TYPE_AUTH_REQ, 0, HS_AUTH_REQ, 0,
                 AuthReqPlain(r.user, cfg.master, serverNonce, r.clientNonce))
  }

  function AckBox(cfg: Config, serverNonce: u64, a: Acceptance): Box {
    HandshakeBox(HandshakeKeys(cfg.master, serverNonce), S2C, TYPE_AUTH_ACK, a.sid, HS_AUTH_ACK, 0,
                 AuthProofS2C(cfg.master, serverNonce, a.clientNonce))
  }

  function NackBox(cfg: Config, serverNonce: u64, reason: Text): Box {
    HandshakeBox(HandshakeKeys(cfg.master, serverNonce), S2C, TYPE_AUTH_NACK, 0, HS_AUTH_NACK, 0,
                 EncodeAuthNack(reason))
  }

  predicate Accounted(cfg: Config, w: World, b: Box) {
    var n := b.key.serverNonce;
    match b.key.purpose
    case DiscoverKey =>
      Values(b.nonce) in w.discovers && b == DiscoverBoxOf(cfg, Values(b.nonce), w.discovers[Values(b.nonce)])
    case HandshakeC2S => n in w.requests && b == RequestBox(cfg, n, w.requests[n])
    case HandshakeS2C =>
      || (n in w.minted && b == RespBox(cfg, n, w.minted[n]))
      || (n in w.accepts && b == AckBox(cfg, n, w.accepts[n]))
      || (n in w.nacks && b == NackBox(cfg, n, w.nacks[n]))
    case _ => false
  }

  predicate AllAccounted(cfg: Config, w: World) {
    forall b :: b in w.sealed ==> Accounted(cfg, w, b)
  }

  /** Each AUTH_REQ belongs to the client that owned the discover id the server nonce was minted
      for; a server nonce meets one verdict. */
  predicate HistoryOk(w: World) {
    && w.minted.Keys <= w.drawn && w.owner.Keys <= w.drawn
    && w.accepts.Keys <= w.minted.Keys && w.nacks.Keys <= w.minted.Keys
    && (forall n :: n in w.accepts ==> n !in w.nacks && n in w.spent) && (forall n :: n in w.nacks ==> n in w.spent)
    && (forall n :: n in w.spent ==> n in w.accepts || n in w.nacks)
    && (forall i, j :: 0 <= i < j < |w.spent| ==> w.spent[i] != w.spent[j])
    && (forall n :: n in w.requests ==>
          && n in w.minted && w.minted[n] == w.requests[n].discoverId
          && w.minted[n] in w.owner && w.owner[w.minted[n]] == w.requests[n].client)
  }

  /** Without insiders each acceptance answers a client's AUTH_REQ. */
  predicate AcceptsOk(cfg: Config, w: World) {
    !cfg.insiders ==> forall n :: n in w.accepts ==> Answers(w, n, w.accepts[n])
  }

  predicate Answers(w: World, n: u64, a: Acceptance) {
    n in w.requests && a.clientNonce == w.requests[n].clientNonce && a.user == w.requests[n].user
  }

  /** A pending nonce was minted for its discover id and has met neither verdict. */
  predicate Unspent(w: World, p: Pending) {
    && p.serverNonce in w.minted && w.minted[p.serverNonce] == p.discoverId
    && p.serverNonce !in w.accepts && p.serverNonce !in w.nacks
  }

  predicate ServersOk(w: World) {
    && (forall m :: m in w.servers && w.servers[m].pending.Some? ==> Unspent(w, w.servers[m].pending.value))
    && (forall m1, m2 :: m1 in w.servers && m2 in w.servers && m1 != m2
          && w.servers[m1].pending.Some? && w.servers[m2].pending.Some?
          ==> w.servers[m1].pending.value.serverNonce != w.servers[m2].pending.value.serverNonce)
  }

  /** The acceptance behind a client's session. */
  predicate AgreedOn(cfg: Config, w: World, c: nat, phase: ClientPhase, n: u64)
    requires phase.InSession?
  {
    && n in w.accepts && n in w.requests && w.requests[n].client == c
    && w.accepts[n].sid == phase.sessionId && w.accepts[n].clientNonce == w.requests[n].clientNonce
    && phase.keys == SessionKeys(cfg.master, n, w.accepts[n].clientNonce)
  }

  ghost predicate ClientOk(cfg: Config, w: World, c: nat, phase: ClientPhase) {
    match phase
    case Discovering(id) =>
      id in w.owner && w.owner[id] == c && forall n :: n in w.requests ==> w.requests[n].discoverId != id
    case AwaitAuth(n, clientNonce, hkey) =>
      && n in w.requests && w.requests[n].client == c && w.requests[n].clientNonce == clientNonce
      && hkey == HandshakeKeys(cfg.master, n)
    case InSession(_, _) => exists n :: AgreedOn(cfg, w, c, phase, n)
    case Refused(_) => true
  }

  ghost predicate ClientsOk(cfg: Config, w: World) {
    forall c :: c in w.clients ==> ClientOk(cfg, w, c, w.clients[c])
  }

  ghost predicate Inv(cfg: Config, w: World) {
    AllAccounted(cfg, w) && HistoryOk(w) && AcceptsOk(cfg, w) && ServersOk(w) && ClientsOk(cfg, w)
  }

  // ---------------------------------------------------------------- what opens was sealed

  lemma BoxesInFrame(header: seq<byte>, prefix: seq<byte>, box: Box)
    ensures BoxesIn(Clears(header) + (Clears(prefix) + Seal(box))) == {box}
  {
    var raw := Clears(header) + (Clears(prefix) + Seal(box));
    var k := |header| + |prefix|;
    assert raw[k] == Cipher(box, 0);
  }

  /** An authentic ciphertext on the wire is one of the sealed boxes. */
  lemma OpenedWasSealed(cfg: Config, w: World, octets: seq<Octet>, box: Box)
    requires Known(cfg, w, octets) && Guarded(cfg, box.key)
    requires Open(box.key, box.nonce, box.aad, octets) == Some(box.plain)
    ensures box in w.sealed
  {
    OpenExactly(box.key, box.nonce, box.aad, octets, box.plain);
    assert octets[0] == Cipher(box, 0);
  }

  lemma CountersDiffer(keys: Keys)
    ensures keys.Nonce(HS_RESP) != keys.Nonce(HS_AUTH_ACK)
    ensures keys.Nonce(HS_RESP) != keys.Nonce(HS_AUTH_NACK)
    ensures keys.Nonce(HS_AUTH_ACK) != keys.Nonce(HS_AUTH_NACK)
  {
    NonceInjective(keys, HS_RESP, HS_AUTH_ACK);
    NonceInjective(keys, HS_RESP, HS_AUTH_NACK);
    NonceInjective(keys, HS_AUTH_ACK, HS_AUTH_NACK);
  }

  lemma PayloadKnown(cfg: Config, w: World, raw: seq<Octet>)
    requires Known(cfg, w, raw) && Decode(raw).Ok?
    ensures Known(cfg, w, Decode(raw).value.payload) && |Decode(raw).value.payload| <= 0xFFFF
  {
    var p := Decode(raw).value.payload;
    assert forall k :: 0 <= k < |p| ==> p[k] == raw[HEADER_LEN + k];
  }

  /** A RESP a client adopts was sealed for exactly the discover id it carries. */
  lemma RespIsAuthentic(cfg: Config, w: World, f: Frame, discoverId: u64)
    requires AllAccounted(cfg, w) && Known(cfg, w, f.payload) && |f.payload| <= 0xFFFF
    requires OpenResp(f, cfg.master, discoverId).Some?
    ensures var n := OpenResp(f, cfg.master, discoverId).value.0; n in w.minted && w.minted[n] == discoverId
  {
    hide EncodeHeader, EncodeResp, DecodeResp, EncodeAuthNack;
    var n := From64(Values(f.payload[..8]));
    var hk := HandshakeKeys(cfg.master, n);
    var plain := OpenPrefixed(hk, S2C, HS_RESP, f, 8).value;
    var box := Box(hk.Key(S2C), hk.Nonce(HS_RESP), HeaderOf(f), plain);
    OpenedWasSealed(cfg, w, f.payload[8..], box);
    CountersDiffer(hk);
    assert box == RespBox(cfg, n, w.minted[n]);
    OpenExactly(box.key, box.nonce, box.aad, f.payload[8..], box.plain);
    RespFits(cfg, w.minted[n]);
    RespRoundTrip(Resp(w.minted[n], cfg.deviceName, cfg.ports));
  }

  lemma RespFits(cfg: Config, discoverId: u64)
    ensures |EncodeResp(Resp(discoverId, cfg.deviceName, cfg.ports))| >= |cfg.deviceName|
  {
  }

  /** Without insiders, an AUTH_REQ a server can open is the one AUTH_REQ sealed under its pending nonce, and is
      accepted with that request's nonce and user. */
  lemma RequestIsAuthentic(cfg: Config, w: World, s: ServerState, f: Frame)
    requires AllAccounted(cfg, w) && Known(cfg, w, f.payload) && |f.payload| <= 0xFFFF
    requires !cfg.insiders && s.pending.Some? && VerifyAuth(s, f, cfg.master).1 != Unauthentic
    ensures var n := s.pending.value.serverNonce;
            && n in w.requests
            && VerifyAuth(s, f, cfg.master) ==
                 (ServerState(Some(s.nextSessionId), None, (s.nextSessionId + 1) % TWO32),
                  Accepted(s.nextSessionId, SessionKeys(cfg.master, n, w.requests[n].clientNonce),
                           AuthProofS2C(cfg.master, n, w.requests[n].clientNonce),
                           HandshakeKeys(cfg.master, n), w.requests[n].user))
  {
    hide EncodeHeader, DecodeAuthReq, EncodeAuthReq;
    var n := s.pending.value.serverNonce;
    var hk := HandshakeKeys(cfg.master, n);
    var plain := OpenFrame(hk, C2S, HS_AUTH_REQ, f).value;
    var box := Box(hk.Key(C2S), hk.Nonce(HS_AUTH_REQ), HeaderOf(f), plain);
    OpenedWasSealed(cfg, w, f.payload, box);
    OpenExactly(box.key, box.nonce, box.aad, f.payload, box.plain);
    var r := w.requests[n];
    var proof := AuthProofC2S(cfg.master, n, r.clientNonce);
    AuthReqLength(r.user, r.clientNonce, proof);
    AuthReqRoundTrip(r.user, r.clientNonce, proof);
  }

  /** An ACK a waiting client believes was sealed with an acceptance under its server nonce. */
  lemma AckIsAuthentic(cfg: Config, w: World, n: u64, clientNonce: u64, f: Frame)
    requires AllAccounted(cfg, w) && Known(cfg, w, f.payload)
    requires AckProves(AwaitAuth(n, clientNonce, HandshakeKeys(cfg.master, n)), f, cfg.master)
    ensures n in w.accepts && w.accepts[n].sid == f.sessionId && w.accepts[n].clientNonce == clientNonce
  {
    hide EncodeHeader, EncodeResp, EncodeAuthNack;
    var hk := HandshakeKeys(cfg.master, n);
    var plain := OpenFrame(hk, S2C, HS_AUTH_ACK, f).value;
    var box := Box(hk.Key(S2C), hk.Nonce(HS_AUTH_ACK), HeaderOf(f), plain);
    OpenedWasSealed(cfg, w, f.payload, box);
    CountersDiffer(hk);
    var a := w.accepts[n];
    assert box == AckBox(cfg, n, a);
    HeaderInjective(f.msgType, f.sessionId, f.seqNo, f.len, TYPE_AUTH_ACK, a.sid, 0, 48);
    ProofInjective(cfg.master, n, a.clientNonce, n, clientNonce);
  }

  // ---------------------------------------------------------------- every step keeps the invariant

  predicate Extends<K, V(==)>(m: map<K, V>, m': map<K, V>) {
    forall k :: k in m ==> k in m' && m'[k] == m[k]
  }

  /** The history is only added to. */
  predicate Grows(w: World, w': World) {
    && Extends(w.discovers, w'.discovers) && Extends(w.owner, w'.owner) && Extends(w.minted, w'.minted)
    && Extends(w.requests, w'.requests) && Extends(w.accepts, w'.accepts) && Extends(w.nacks, w'.nacks)
    && w.drawn <= w'.drawn && w.sealed <= w'.sealed && w.spent <= w'.spent
  }

  lemma AccountedGrows(cfg: Config, w: World, w': World)
    requires AllAccounted(cfg, w) && Grows(w, w')
    ensures forall b :: b in w.sealed ==> Accounted(cfg, w', b)
  {
    hide DiscoverBoxOf, RespBox, RequestBox, AckBox, NackBox;
  }

  /** Clients other than the one that moved stay explained, if no new AUTH_REQ used their id. */
  lemma ClientGrows(cfg: Config, w: World, w': World, c: nat, phase: ClientPhase)
    requires ClientOk(cfg, w, c, phase) && Grows(w, w')
    requires phase.Discovering? ==> forall n :: n in w'.requests && n !in w.requests
                                      ==> w'.requests[n].discoverId != phase.discoverId
    ensures ClientOk(cfg, w', c, phase)
  {
    if phase.InSession? {
      var n :| AgreedOn(cfg, w, c, phase, n);
      assert AgreedOn(cfg, w', c, phase, n);
    }
  }

  /** What each sealed frame adds to the network: one box, filed under its server nonce. */
  lemma RequestEmits(cfg: Config, n: u64, r: Request)
    ensures BoxesIn(AuthReqFrame(r.user, cfg.master, n, r.clientNonce)) == {RequestBox(cfg, n, r)}
    ensures RequestBox(cfg, n, r).key == Digest(HandshakeC2S, cfg.master, n, 0)
  {
    BoxesInFrame(RequestBox(cfg, n, r).aad, [], RequestBox(cfg, n, r));
  }

  lemma RespEmits(cfg: Config, n: u64, discoverId: u64)
    ensures BoxesIn(RespFrame(cfg.master, n, Resp(discoverId, cfg.deviceName, cfg.ports)))
            == {RespBox(cfg, n, discoverId)}
    ensures RespBox(cfg, n, discoverId).key == Digest(HandshakeS2C, cfg.master, n, 0)
  {
    BoxesInFrame(RespBox(cfg, n, discoverId).aad, Be64(n), RespBox(cfg, n, discoverId));
  }

  lemma AckEmits(cfg: Config, n: u64, a: Acceptance)
    ensures BoxesIn(AckFrame(HandshakeKeys(cfg.master, n), a.sid, AuthProofS2C(cfg.master, n, a.clientNonce)))
            == {AckBox(cfg, n, a)}
    ensures AckBox(cfg, n, a).key == Digest(HandshakeS2C, cfg.master, n, 0)
  {
    BoxesInFrame(AckBox(cfg, n, a).aad, [], AckBox(cfg, n, a));
  }

  lemma NackEmits(cfg: Config, n: u64, reason: Text)
    ensures BoxesIn(NackFrame(HandshakeKeys(cfg.master, n), reason)) == {NackBox(cfg, n, reason)}
    ensures NackBox(cfg, n, reason).key == Digest(HandshakeS2C, cfg.master, n, 0)
  {
    BoxesInFrame(NackBox(cfg, n, reason).aad, [], NackBox(cfg, n, reason));
  }

  /** Sealing one accounted box more keeps every box accounted. */
  lemma BoxAdded(cfg: Config, w: World, w': World, box: Box)
    requires AllAccounted(cfg, w) && Grows(w, w')
    requires w'.sealed == w.sealed + {box} && Accounted(cfg, w', box)
    ensures AllAccounted(cfg, w')
  {
    hide DiscoverBoxOf, RespBox, RequestBox, AckBox, NackBox;
    AccountedGrows(cfg, w, w');
  }

  lemma DiscoverEmits(cfg: Config, nonce: seq<byte>, d: (u64, Text, Option<Text>))
    ensures BoxesIn(DiscoverFrame(d.1, d.2, cfg.master, d.0, nonce).1) == {DiscoverBoxOf(cfg, nonce, d)}
    ensures DiscoverBoxOf(cfg, nonce, d).key == PreSharedKey(cfg.master)
    ensures Values(DiscoverBoxOf(cfg, nonce, d).nonce) == nonce
  {
    BoxesInFrame(DiscoverBoxOf(cfg, nonce, d).aad, nonce, DiscoverBoxOf(cfg, nonce, d));
    ValuesOfClears(nonce);
  }

  lemma SameServers(w: World, w': World)
    requires ServersOk(w) && w'.servers == w.servers && w'.minted == w.minted
    requires w'.accepts == w.accepts && w'.nacks == w.nacks
    ensures ServersOk(w')
  {
  }

  lemma AttemptAddedHistory(cfg: Config, w: World, c: nat, nonce: seq<byte>, d: (u64, Text, Option<Text>), w': World)
    requires Inv(cfg, w) && d.0 !in w.drawn && nonce !in w.discovers
    requires w' == w.(sealed := w.sealed + {DiscoverBoxOf(cfg, nonce, d)}, drawn := w.drawn + {d.0},
                      clients := w.clients[c := Discovering(d.0)],
                      discovers := w.discovers[nonce := d], owner := w.owner[d.0 := c])
    ensures Grows(w, w') && HistoryOk(w') && AcceptsOk(cfg, w') && ServersOk(w')
  {
    hide ServersOk, AllAccounted, Accounted, Known, DiscoverBoxOf, RespBox, RequestBox, AckBox, NackBox, HandshakeKeys;
    SameServers(w, w');
  }

  /** A client starts an attempt: the history side. */
  lemma AttemptAdded(cfg: Config, w: World, c: nat, nonce: seq<byte>, d: (u64, Text, Option<Text>), w': World)
    requires Inv(cfg, w) && d.0 !in w.drawn && nonce !in w.discovers
    requires w' == w.(sealed := w.sealed + {DiscoverBoxOf(cfg, nonce, d)}, drawn := w.drawn + {d.0},
                      clients := w.clients[c := Discovering(d.0)],
                      discovers := w.discovers[nonce := d], owner := w.owner[d.0 := c])
    ensures Grows(w, w') && Inv(cfg, w')
  {
    hide DiscoverBoxOf, RespBox, RequestBox, AckBox, NackBox, HistoryOk, AcceptsOk, ServersOk, Grows;
    AttemptAddedHistory(cfg, w, c, nonce, d, w');
    FreshUnused(w, d.0);
    assert Accounted(cfg, w', DiscoverBoxOf(cfg, nonce, d)) by {
      DiscoverEmits(cfg, nonce, d);
    }
    BoxAdded(cfg, w, w', DiscoverBoxOf(cfg, nonce, d));
    ClientsExcept(cfg, w, w', c);
  }

  lemma FreshUnused(w: World, discoverId: u64)
    requires HistoryOk(w) && discoverId !in w.drawn
    ensures discoverId !in w.owner && forall n :: n in w.requests ==> w.requests[n].discoverId != discoverId
  {
  }

  /** All clients but `c` stay explained. */
  lemma ClientsExcept(cfg: Config, w: World, w': World, c: nat)
    requires ClientsOk(cfg, w) && Grows(w, w') && w'.clients.Keys <= w.clients.Keys + {c}
    requires forall c' :: c' in w.clients && c' != c ==> c' in w'.clients && w'.clients[c'] == w.clients[c']
    requires forall c', n :: c' in w.clients && c' != c && w.clients[c'].Discovering?
               && n in w'.requests && n !in w.requests
               ==> w'.requests[n].discoverId != w.clients[c'].discoverId
    ensures forall c' :: c' in w'.clients && c' != c ==> ClientOk(cfg, w', c', w'.clients[c'])
  {
    hide Grows;
    forall c' | c' in w'.clients && c' != c
      ensures ClientOk(cfg, w', c', w'.clients[c'])
    {
      ClientGrows(cfg, w, w', c', w.clients[c']);
    }
  }

  lemma RequestAddedHistory(cfg: Config, w: World, n: u64, r: Request, w': World)
    requires Inv(cfg, w) && n in w.minted && w.minted[n] == r.discoverId
    requires r.client in w.clients && w.clients[r.client] == Discovering(r.discoverId)
    requires w' == w.(sealed := w.sealed + {RequestBox(cfg, n, r)}, drawn := w.drawn + {r.clientNonce},
                      clients := w.clients[r.client := AwaitAuth(n, r.clientNonce, HandshakeKeys(cfg.master, n))],
                      requests := w.requests[n := r])
    ensures n !in w.requests && Grows(w, w') && HistoryOk(w') && AcceptsOk(cfg, w') && ServersOk(w')
  {
    hide ServersOk, AllAccounted, Accounted, Known, DiscoverBoxOf, RespBox, RequestBox, AckBox, NackBox, HandshakeKeys;
    SameServers(w, w');
  }

  /** A client answers a RESP minted for its own id: the history side. */
  lemma RequestAdded(cfg: Config, w: World, n: u64, r: Request, w': World)
    requires Inv(cfg, w) && n in w.minted && w.minted[n] == r.discoverId
    requires r.client in w.clients && w.clients[r.client] == Discovering(r.discoverId)
    requires w' == w.(sealed := w.sealed + {RequestBox(cfg, n, r)}, drawn := w.drawn + {r.clientNonce},
                      clients := w.clients[r.client := AwaitAuth(n, r.clientNonce, HandshakeKeys(cfg.master, n))],
                      requests := w.requests[n := r])
    ensures n !in w.requests && Grows(w, w') && Inv(cfg, w')
  {
    hide DiscoverBoxOf, RespBox, RequestBox, AckBox, NackBox, HandshakeKeys, HistoryOk, AcceptsOk, ServersOk, Grows;
    RequestAddedHistory(cfg, w, n, r, w');
    assert n !in w.requests;
    assert Accounted(cfg, w', RequestBox(cfg, n, r)) by {
      RequestEmits(cfg, n, r);
    }
    BoxAdded(cfg, w, w', RequestBox(cfg, n, r));
    ClientsExcept(cfg, w, w', r.client);
  }

  lemma MintAddedHistory(cfg: Config, w: World, m: nat, s: ServerState, drawn: u64, w': World)
    requires Inv(cfg, w) && drawn !in w.drawn && s.pending.Some?
    requires s.pending.value.serverNonce == drawn
             || (m in w.servers && w.servers[m].pending == s.pending)
    requires var p := s.pending.value;
             w' == w.(sealed := w.sealed + {RespBox(cfg, p.serverNonce, p.discoverId)},
                      servers := w.servers[m := s], drawn := w.drawn + {drawn},
                      minted := w.minted[p.serverNonce := p.discoverId])
    ensures Grows(w, w') && HistoryOk(w') && AcceptsOk(cfg, w') && ServersOk(w')
  {
    hide Inv, Grows, HistoryOk, AcceptsOk, ServersOk, RespBox;
    MintGrows(cfg, w, m, s, drawn, w');
    MintServers(cfg, w, m, s, drawn, w');
  }

  lemma MintGrows(cfg: Config, w: World, m: nat, s: ServerState, drawn: u64, w': World)
    requires Inv(cfg, w) && drawn !in w.drawn && s.pending.Some?
    requires s.pending.value.serverNonce == drawn
             || (m in w.servers && w.servers[m].pending == s.pending)
    requires var p := s.pending.value;
             w' == w.(sealed := w.sealed + {RespBox(cfg, p.serverNonce, p.discoverId)},
                      servers := w.servers[m := s], drawn := w.drawn + {drawn},
                      minted := w.minted[p.serverNonce := p.discoverId])
    ensures Grows(w, w') && HistoryOk(w') && AcceptsOk(cfg, w')
  {
    hide ClientsOk, AllAccounted, Accounted, Known, DiscoverBoxOf, RespBox, RequestBox, AckBox, NackBox, HandshakeKeys;
  }

  lemma MintServers(cfg: Config, w: World, m: nat, s: ServerState, drawn: u64, w': World)
    requires Inv(cfg, w) && drawn !in w.drawn && s.pending.Some?
    requires s.pending.value.serverNonce == drawn
             || (m in w.servers && w.servers[m].pending == s.pending)
    requires var p := s.pending.value;
             w' == w.(sealed := w.sealed + {RespBox(cfg, p.serverNonce, p.discoverId)},
                      servers := w.servers[m := s], drawn := w.drawn + {drawn},
                      minted := w.minted[p.serverNonce := p.discoverId])
    ensures ServersOk(w')
  {
    hide ClientsOk, AllAccounted, Accounted, Known, DiscoverBoxOf, RespBox, RequestBox, AckBox, NackBox, HandshakeKeys;
  }

  /** A server peer begins or repeats an attempt: the history side. */
  lemma MintAdded(cfg: Config, w: World, m: nat, s: ServerState, drawn: u64, w': World)
    requires Inv(cfg, w) && drawn !in w.drawn && s.pending.Some?
    requires s.pending.value.serverNonce == drawn
             || (m in w.servers && w.servers[m].pending == s.pending)
    requires var p := s.pending.value;
             w' == w.(sealed := w.sealed + {RespBox(cfg, p.serverNonce, p.discoverId)},
                      servers := w.servers[m := s], drawn := w.drawn + {drawn},
                      minted := w.minted[p.serverNonce := p.discoverId])
    ensures Grows(w, w') && Inv(cfg, w')
  {
    hide DiscoverBoxOf, RespBox, RequestBox, AckBox, NackBox, ClientsOk, HistoryOk, AcceptsOk, ServersOk, Grows;
    MintAddedHistory(cfg, w, m, s, drawn, w');
    var p := s.pending.value;
    assert Accounted(cfg, w', RespBox(cfg, p.serverNonce, p.discoverId)) by {
      RespEmits(cfg, p.serverNonce, p.discoverId);
    }
    BoxAdded(cfg, w, w', RespBox(cfg, p.serverNonce, p.discoverId));
    ClientsUntouched(cfg, w, w');
  }

  lemma AcceptanceAddedHistory(cfg: Config, w: World, n: u64, a: Acceptance, s: ServerState, w': World)
    requires Inv(cfg, w) && a.peer in w.servers && w.servers[a.peer].pending.Some? && s.pending.None?
    requires n == w.servers[a.peer].pending.value.serverNonce && (!cfg.insiders ==> Answers(w, n, a))
    requires w' == w.(sealed := w.sealed + {AckBox(cfg, n, a)}, servers := w.servers[a.peer := s],
                      accepts := w.accepts[n := a], spent := w.spent + [n])
    ensures Grows(w, w') && HistoryOk(w') && AcceptsOk(cfg, w') && ServersOk(w')
  {
    hide ClientsOk, AllAccounted, RespBox, AckBox, NackBox, Inv, ServersOk, HistoryOk;
    VerdictFacts(cfg, w, a.peer);
    VerdictServers(w, w', a.peer, n);
    VerdictHistory(w, w', n);
  }

  lemma VerdictFacts(cfg: Config, w: World, m: nat)
    requires Inv(cfg, w) && m in w.servers && w.servers[m].pending.Some?
    ensures Unspent(w, w.servers[m].pending.value) && ServersOk(w) && HistoryOk(w) && AcceptsOk(cfg, w)
    ensures w.servers[m].pending.value.serverNonce !in w.spent
  {
    hide AllAccounted, ClientsOk;
  }

  /** The servers after one gave up its pending nonce for a verdict. */
  lemma VerdictServers(w: World, w': World, m: nat, n: u64)
    requires ServersOk(w) && m in w.servers && m in w'.servers && w'.servers == w.servers[m := w'.servers[m]]
    requires w.servers[m].pending.Some? && w.servers[m].pending.value.serverNonce == n && w'.servers[m].pending.None?
    requires w'.minted == w.minted && w'.accepts.Keys <= w.accepts.Keys + {n} && w'.nacks.Keys <= w.nacks.Keys + {n}
    ensures ServersOk(w')
  {
  }

  /** The history after one verdict more. */
  lemma VerdictHistory(w: World, w': World, n: u64)
    requires HistoryOk(w) && n in w.minted && n !in w.spent && n !in w.accepts && n !in w.nacks
    requires w'.minted == w.minted && w'.drawn == w.drawn && w'.owner == w.owner && w'.requests == w.requests
    requires w'.spent == w.spent + [n]
    requires || (n in w'.accepts && w'.accepts == w.accepts[n := w'.accepts[n]] && w'.nacks == w.nacks)
             || (n in w'.nacks && w'.nacks == w.nacks[n := w'.nacks[n]] && w'.accepts == w.accepts)
    ensures HistoryOk(w')
  {
  }

  /** A server peer accepts the AUTH_REQ under its pending nonce: the history side. */
  lemma AcceptanceAdded(cfg: Config, w: World, n: u64, a: Acceptance, s: ServerState, w': World)
    requires Inv(cfg, w) && a.peer in w.servers && w.servers[a.peer].pending.Some? && s.pending.None?
    requires n == w.servers[a.peer].pending.value.serverNonce && (!cfg.insiders ==> Answers(w, n, a))
    requires w' == w.(sealed := w.sealed + {AckBox(cfg, n, a)}, servers := w.servers[a.peer := s],
                      accepts := w.accepts[n := a], spent := w.spent + [n])
    ensures Grows(w, w') && Inv(cfg, w')
  {
    hide DiscoverBoxOf, RespBox, RequestBox, AckBox, NackBox, ClientsOk, HistoryOk, AcceptsOk, ServersOk, Grows;
    AcceptanceAddedHistory(cfg, w, n, a, s, w');
    assert Accounted(cfg, w', AckBox(cfg, n, a)) by {
      AckEmits(cfg, n, a);
    }
    BoxAdded(cfg, w, w', AckBox(cfg, n, a));
    ClientsUntouched(cfg, w, w');
  }

  lemma RefusalAddedHistory(cfg: Config, w: World, m: nat, n: u64, reason: Text, s: ServerState, w': World)
    requires Inv(cfg, w) && m in w.servers && w.servers[m].pending.Some? && s.pending.None?
    requires n == w.servers[m].pending.value.serverNonce
    requires w' == w.(sealed := w.sealed + {NackBox(cfg, n, reason)}, servers := w.servers[m := s],
                      nacks := w.nacks[n := reason], spent := w.spent + [n])
    ensures Grows(w, w') && HistoryOk(w') && AcceptsOk(cfg, w') && ServersOk(w')
  {
    hide ClientsOk, AllAccounted, RespBox, AckBox, NackBox, Inv, ServersOk, HistoryOk;
    VerdictFacts(cfg, w, m);
    VerdictServers(w, w', m, n);
    VerdictHistory(w, w', n);
  }

  /** A server peer gives its pending nonce up for a refusal: the history side. */
  lemma RefusalAdded(cfg: Config, w: World, m: nat, n: u64, reason: Text, s: ServerState, w': World)
    requires Inv(cfg, w) && m in w.servers && w.servers[m].pending.Some? && s.pending.None?
    requires n == w.servers[m].pending.value.serverNonce
    requires w' == w.(sealed := w.sealed + {NackBox(cfg, n, reason)}, servers := w.servers[m := s],
                      nacks := w.nacks[n := reason], spent := w.spent + [n])
    ensures Grows(w, w') && Inv(cfg, w')
  {
    hide DiscoverBoxOf, RespBox, RequestBox, AckBox, NackBox, ClientsOk, HistoryOk, AcceptsOk, ServersOk, Grows;
    RefusalAddedHistory(cfg, w, m, n, reason, s, w');
    assert Accounted(cfg, w', NackBox(cfg, n, reason)) by {
      NackEmits(cfg, n, reason);
    }
    BoxAdded(cfg, w, w', NackBox(cfg, n, reason));
    ClientsUntouched(cfg, w, w');
  }

  lemma DiscoverKeeps(cfg: Config, w: World, e: Event)
    requires Inv(cfg, w) && e.Discover? && Possible(cfg, w, e)
    ensures Grows(w, OnDiscover(cfg, w, e)) && Inv(cfg, OnDiscover(cfg, w, e))
  {
    hide Inv, Grows, DiscoverBoxOf, BoxesIn, SealDiscover;
    var d := (e.discoverId, e.name, e.token);
    DiscoverEmits(cfg, e.nonce, d);
    AttemptAdded(cfg, w, e.client, e.nonce, d, OnDiscover(cfg, w, e));
  }

  lemma RespKeeps(cfg: Config, w: World, e: Event, f: Frame)
    requires Inv(cfg, w) && e.RespArrives? && e.client in w.clients
    requires Known(cfg, w, f.payload) && |f.payload| <= 0xFFFF
    ensures Grows(w, OnRespFrame(cfg, w, e, f)) && Inv(cfg, OnRespFrame(cfg, w, e, f))
  {
    hide Inv, Grows, AuthReqFrame, OpenResp, RequestBox, BoxesIn;
    var phase := w.clients[e.client];
    if phase.Discovering? && OpenResp(f, cfg.master, phase.discoverId).Some? {
      AccountedIn(cfg, w);
      RespIsAuthentic(cfg, w, f, phase.discoverId);
      var n := OpenResp(f, cfg.master, phase.discoverId).value.0;
      var r := Request(e.client, phase.discoverId, e.clientNonce, e.user);
      RequestEmits(cfg, n, r);
      RequestAdded(cfg, w, n, r, OnRespFrame(cfg, w, e, f));
    } else {
      SameWorldGrows(w);
    }
  }

  lemma AccountedIn(cfg: Config, w: World)
    requires Inv(cfg, w)
    ensures AllAccounted(cfg, w)
  {
  }

  lemma AuthReplyKeeps(cfg: Config, w: World, e: Event, f: Frame)
    requires Inv(cfg, w) && e.AuthReplyArrives? && e.client in w.clients && Known(cfg, w, f.payload)
    ensures Grows(w, OnAuthReply(cfg, w, e, f)) && Inv(cfg, OnAuthReply(cfg, w, e, f))
  {
    hide AckProves, OpenNack, DecodeAuthNack, AllAccounted, HistoryOk, AcceptsOk, ServersOk, Grows;
    var phase := w.clients[e.client];
    var w' := OnAuthReply(cfg, w, e, f);
    OnlyClientsMove(cfg, w, w');
    forall c | c in w'.clients
      ensures ClientOk(cfg, w', c, w'.clients[c])
    {
      ClientGrows(cfg, w, w', c, w.clients[c]);
      if c == e.client && phase.AwaitAuth? && AckProves(phase, f, cfg.master) {
        AckIsAuthentic(cfg, w, phase.serverNonce, phase.clientNonce, f);
        assert f.msgType == TYPE_AUTH_ACK ==> AgreedOn(cfg, w', c, w'.clients[c], phase.serverNonce);
      }
    }
  }

  lemma OnlyClientsMove(cfg: Config, w: World, w': World)
    requires Inv(cfg, w) && w' == w.(clients := w'.clients)
    ensures AllAccounted(cfg, w') && HistoryOk(w') && AcceptsOk(cfg, w') && ServersOk(w') && Grows(w, w')
  {
    hide ClientsOk;
    AccountedGrows(cfg, w, w');
  }

  /** Nothing a server peer does moves a client. */
  lemma ClientsUntouched(cfg: Config, w: World, w': World)
    requires ClientsOk(cfg, w) && Grows(w, w') && w'.clients == w.clients && w'.requests == w.requests
    ensures ClientsOk(cfg, w')
  {
    forall c | c in w'.clients
      ensures ClientOk(cfg, w', c, w'.clients[c])
    {
      ClientGrows(cfg, w, w', c, w.clients[c]);
    }
  }

  lemma DiscoverArrivesKeeps(cfg: Config, w: World, e: Event, discoverId: u64)
    requires Inv(cfg, w) && e.DiscoverArrives? && e.serverNonce !in w.drawn
    ensures Grows(w, OnDiscoverFrame(cfg, w, e, discoverId)) && Inv(cfg, OnDiscoverFrame(cfg, w, e, discoverId))
  {
    hide Inv, Grows, RespFrame, RespBox, BoxesIn;
    var w' := OnDiscoverFrame(cfg, w, e, discoverId);
    var s := w'.servers[e.peer];
    RespEmits(cfg, s.pending.value.serverNonce, discoverId);
    MintAdded(cfg, w, e.peer, s, e.serverNonce, w');
  }

  lemma AuthReqKeeps(cfg: Config, w: World, e: Event, f: Frame)
    requires Inv(cfg, w) && e.AuthReqArrives? && e.peer in w.servers
    requires Known(cfg, w, f.payload) && |f.payload| <= 0xFFFF
    ensures Grows(w, OnAuthReqFrame(cfg, w, e, f)) && Inv(cfg, OnAuthReqFrame(cfg, w, e, f))
  {
    hide Inv, Grows, AckFrame, NackFrame, AckBox, BoxesIn, AuthProofS2C, VerifyAuth, HandshakeKeys, Known;
    var s := w.servers[e.peer];
    var w' := OnAuthReqFrame(cfg, w, e, f);
    var r := VerifyAuth(s, f, cfg.master).1;
    if s.pending.Some? && r != Unauthentic {
      var n := s.pending.value.serverNonce;
      VerdictUnder(s, f, cfg.master);
      if r.Accepted? {
        var a := Acceptance(e.peer, r.sid, ClientNonceOf(r.keys), r.user);
        AccountedIn(cfg, w);
        if !cfg.insiders {
          RequestIsAuthentic(cfg, w, s, f);
        }
        AckEmits(cfg, n, a);
        AcceptanceAdded(cfg, w, n, a, w'.servers[e.peer], w');
      } else {
        NackEmits(cfg, n, AUTH_FAILED);
        RefusalAdded(cfg, w, e.peer, n, AUTH_FAILED, w'.servers[e.peer], w');
      }
    } else {
      UnauthenticChangesNothing(cfg, w, e, f);
      SameWorldGrows(w);
    }
  }

  /** What a verdict is made of, whoever sealed the AUTH_REQ: the pending nonce is given up, and all
      keys and proofs are those of this nonce. */
  lemma VerdictUnder(s: ServerState, f: Frame, master: MasterKey)
    requires s.pending.Some? && VerifyAuth(s, f, master).1 != Unauthentic
    ensures var n := s.pending.value.serverNonce;
            var (s', r) := VerifyAuth(s, f, master);
            && s'.pending.None?
            && match r
               case Rejected(hkey) => hkey == HandshakeKeys(master, n)
               case Accepted(_, keys, proof, hkey, _) =>
                 && hkey == HandshakeKeys(master, n) && keys == SessionKeys(master, n, ClientNonceOf(keys))
                 && proof == AuthProofS2C(master, n, ClientNonceOf(keys))
               case Unauthentic => true
  {
    hide DecodeAuthReq, OpenFrame, HandshakeKeys, AuthProofC2S, AuthProofS2C;
  }

  lemma UnauthenticChangesNothing(cfg: Config, w: World, e: Event, f: Frame)
    requires e.AuthReqArrives? && e.peer in w.servers
    requires w.servers[e.peer].pending.None? || VerifyAuth(w.servers[e.peer], f, cfg.master).1 == Unauthentic
    ensures OnAuthReqFrame(cfg, w, e, f) == w
  {
    hide VerifyAuth;
    var s := w.servers[e.peer];
    VerifyAuthEffects(s, f, cfg.master);
    assert w.servers[e.peer := s] == w.servers;
  }

  lemma LockoutKeeps(cfg: Config, w: World, e: Event)
    requires Inv(cfg, w) && e.Lockout? && e.peer in w.servers
    ensures Grows(w, OnLockout(cfg, w, e)) && Inv(cfg, OnLockout(cfg, w, e))
  {
    hide Inv, Grows, NackFrame, NackBox, BoxesIn, HandshakeKeys, Guarded;
    var s := w.servers[e.peer];
    var w' := OnLockout(cfg, w, e);
    if s.pending.Some? {
      NackEmits(cfg, s.pending.value.serverNonce, e.reason);
      RefusalAdded(cfg, w, e.peer, s.pending.value.serverNonce, e.reason, w'.servers[e.peer], w');
    } else {
      IdleLockout(cfg, w, e);
      SameWorldGrows(w);
    }
  }

  lemma IdleLockout(cfg: Config, w: World, e: Event)
    requires e.Lockout? && e.peer in w.servers && w.servers[e.peer].pending.None?
    ensures OnLockout(cfg, w, e) == w
  {
    assert w.servers[e.peer := w.servers[e.peer]] == w.servers;
  }

  lemma ForgetKeeps(cfg: Config, w: World, e: Event)
    requires Inv(cfg, w) && e.Forget?
    ensures Grows(w, Step(cfg, w, e)) && Inv(cfg, Step(cfg, w, e))
  {
    AccountedGrows(cfg, w, Step(cfg, w, e));
    ClientsUntouched(cfg, w, Step(cfg, w, e));
  }

  lemma StepKeeps(cfg: Config, w: World, e: Event)
    requires Inv(cfg, w) && Possible(cfg, w, e)
    ensures Grows(w, Step(cfg, w, e)) && Inv(cfg, Step(cfg, w, e))
  {
    hide Inv, Grows, Decode, OpenDiscover, OnDiscover, OnRespFrame, OnAuthReply, OnDiscoverFrame,
         OnAuthReqFrame, OnLockout;
    SameWorldGrows(w);
    if (e.RespArrives? || e.AuthReplyArrives? || e.AuthReqArrives?) && Decode(e.raw).Ok? {
      PayloadKnown(cfg, w, e.raw);
    }
    match e
    case Discover(_, _, _, _, _) => DiscoverKeeps(cfg, w, e);
    case RespArrives(c, raw, _, _) =>
      if c in w.clients && Decode(raw).Ok? {
        RespKeeps(cfg, w, e, Decode(raw).value);
      }
    case AuthReplyArrives(c, raw) =>
      if c in w.clients && Decode(raw).Ok? {
        AuthReplyKeeps(cfg, w, e, Decode(raw).value);
      }
    case DiscoverArrives(_, raw, _) =>
      if Decode(raw).Ok? && OpenDiscover(Decode(raw).value, cfg.master).Some? {
        DiscoverArrivesKeeps(cfg, w, e, OpenDiscover(Decode(raw).value, cfg.master).value.0);
      }
    case AuthReqArrives(m, raw) =>
      if m in w.servers && Decode(raw).Ok? {
        AuthReqKeeps(cfg, w, e, Decode(raw).value);
      }
    case Lockout(m, _) =>
      if m in w.servers {
        LockoutKeeps(cfg, w, e);
      }
    case Forget(_) => ForgetKeeps(cfg, w, e);
  }

  lemma SameWorldGrows(w: World)
    ensures Grows(w, w)
  {
  }

  lemma {:induction false} RunKeeps(cfg: Config, events: seq<Event>)
    requires PossibleRun(cfg, events)
    ensures Inv(cfg, Run(cfg, events))
  {
    hide Possible, Step;
    if events != [] {
      RunKeeps(cfg, events[..|events| - 1]);
      StepKeeps(cfg, Run(cfg, events[..|events| - 1]), events[|events| - 1]);
    }
  }

  // ---------------------------------------------------------------- what holds in every run

  /** Agreement, insiders or not: a client is in a session only if a server peer accepted, with the
      same session id and keys, an AUTH_REQ with the nonce this very client drew while discovering
      under the id the server nonce had been minted for.  Without insiders that is the AUTH_REQ the
      client sealed, and the server knows its user. */
  lemma ClientAgreesWithServer(cfg: Config, events: seq<Event>, c: nat) returns (n: u64)
    requires PossibleRun(cfg, events)
    requires c in Run(cfg, events).clients && Run(cfg, events).clients[c].InSession?
    ensures var w := Run(cfg, events);
            var phase := w.clients[c];
            && n in w.accepts && n in w.requests && n in w.minted
            && w.accepts[n].sid == phase.sessionId
            && phase.keys == SessionKeys(cfg.master, n, w.accepts[n].clientNonce)
            && w.accepts[n].clientNonce == w.requests[n].clientNonce
            && (!cfg.insiders ==> w.accepts[n].user == w.requests[n].user)
            && w.requests[n].client == c
            && w.requests[n].discoverId == w.minted[n]
            && w.minted[n] in w.owner && w.owner[w.minted[n]] == c
  {
    hide Step, Possible, AllAccounted, ServersOk;
    RunKeeps(cfg, events);
    var w := Run(cfg, events);
    n :| AgreedOn(cfg, w, c, w.clients[c], n);
  }

  /** No two clients are ever in sessions with the same keys, insiders or not. */
  lemma SessionsNotShared(cfg: Config, events: seq<Event>, c1: nat, c2: nat)
    requires PossibleRun(cfg, events) && c1 != c2
    requires var w := Run(cfg, events);
             && c1 in w.clients && w.clients[c1].InSession? && c2 in w.clients && w.clients[c2].InSession?
    ensures var w := Run(cfg, events); w.clients[c1].keys != w.clients[c2].keys
  {
    hide Run, PossibleRun;
    var n1 := ClientAgreesWithServer(cfg, events, c1);
    var n2 := ClientAgreesWithServer(cfg, events, c2);
    assert n1 != n2;
  }

  /** No key and nonce of the handshake ever seal two different boxes of the program, whatever
      insiders send: not the refusal of a wrong proof, not a lockout, not a repeated RESP. */
  lemma HandshakeNonceNeverReused(cfg: Config, events: seq<Event>, b1: Box, b2: Box)
    requires PossibleRun(cfg, events)
    requires b1 in Run(cfg, events).sealed && b2 in Run(cfg, events).sealed
    requires b1.key == b2.key && b1.nonce == b2.nonce
    ensures b1 == b2
  {
    hide Run, PossibleRun, HistoryOk, AcceptsOk, ServersOk, ClientsOk, EncodeHeader, EncodeResp, EncodeDiscover,
         AuthReqPlain, EncodeAuthNack, AuthProofS2C;
    RunKeeps(cfg, events);
    var w := Run(cfg, events);
    assert Accounted(cfg, w, b1) && Accounted(cfg, w, b2);
    if b1.key.purpose.HandshakeS2C? {
      CountersDiffer(HandshakeKeys(cfg.master, b1.key.serverNonce));
    }
  }

  /** Each server nonce meets at most one verdict over a whole run, be it an acceptance, the refusal
      of a wrong proof, or a lockout's take: no nonce is spent twice, it is either accepted or
      refused, and while it is pending, with one peer only, it has met none. */
  lemma NonceMeetsOneVerdict(cfg: Config, events: seq<Event>)
    requires PossibleRun(cfg, events)
    ensures var w := Run(cfg, events);
            && (forall i, j :: 0 <= i < j < |w.spent| ==> w.spent[i] != w.spent[j])
            && (forall n :: n in w.spent <==> n in w.accepts || n in w.nacks) && w.accepts.Keys !! w.nacks.Keys
            && (forall m :: m in w.servers && w.servers[m].pending.Some? ==>
                  var n := w.servers[m].pending.value.serverNonce;
                  && n in w.minted && n !in w.spent
                  && forall m' :: m' in w.servers && m' != m && w.servers[m'].pending.Some?
                       ==> w.servers[m'].pending.value.serverNonce != n)
  {
    hide Run, PossibleRun, ClientsOk, AllAccounted, AcceptsOk;
    RunKeeps(cfg, events);
  }

  /** A frame that opens under a pending nonce spends it.  Without insiders it is the one AUTH_REQ a
      client sealed under it, and is accepted with its own nonce and user. */
  lemma OpenedRequestIsAnswered(cfg: Config, events: seq<Event>, m: nat, raw: seq<Octet>)
    requires PossibleRun(cfg, events) && Known(cfg, Run(cfg, events), raw) && Decode(raw).Ok?
    requires m in Run(cfg, events).servers && Run(cfg, events).servers[m].pending.Some?
    ensures var w := Run(cfg, events);
            var n := w.servers[m].pending.value.serverNonce;
            var (s', r) := VerifyAuth(w.servers[m], Decode(raw).value, cfg.master);
            && (s'.pending.Some? <==> r == Unauthentic)
            && (!cfg.insiders && r != Unauthentic ==>
                  && r.Accepted? && n in w.requests
                  && w.requests[n].discoverId == w.servers[m].pending.value.discoverId
                  && r.user == w.requests[n].user
                  && r.keys == SessionKeys(cfg.master, n, w.requests[n].clientNonce))
  {
    hide Run, PossibleRun, VerifyAuth, Decode, Known, ClientsOk, Accounted;
    RunKeeps(cfg, events);
    PayloadKnown(cfg, Run(cfg, events), raw);
    var w := Run(cfg, events);
    VerifyAuthEffects(w.servers[m], Decode(raw).value, cfg.master);
    if VerifyAuth(w.servers[m], Decode(raw).value, cfg.master).1 != Unauthentic && !cfg.insiders {
      RequestIsAuthentic(cfg, w, w.servers[m], Decode(raw).value);
    }
  }
}
