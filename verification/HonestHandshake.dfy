/** An undisturbed handshake completes, whatever duplicate captures and noise are mixed in. */
module HonestHandshake {
  import opened Octets
  import opened Frame
  import opened Crypto
  import opened Handshake

  /** What the server may additionally see during an attempt: the same DISCOVER again, captured
      on another interface, or a frame that does not open as an AUTH_REQ. */
  datatype Extra = Duplicate(drawn: u64) | Noise(frame: Frame)

  datatype Advert = Advert(deviceName: Text, ports: seq<u16>)

  function AfterExtras(s: ServerState, extras: seq<Extra>, discoverId: u64, advert: Advert, master: MasterKey)
    : ServerState
    decreases |extras|
  {
    if extras == [] then s else
    var s1 := match extras[0]
      case Duplicate(drawn) => BeginDiscover(s, discoverId, advert.deviceName, advert.ports, master, drawn).0
      case Noise(f) => VerifyAuth(s, f, master).0;
    AfterExtras(s1, extras[1..], discoverId, advert, master)
  }

  predicate Harmless(extras: seq<Extra>, serverNonce: u64, master: MasterKey) {
    forall k :: 0 <= k < |extras| && extras[k].Noise? ==>
      OpenFrame(HandshakeKeys(master, serverNonce), C2S, HS_AUTH_REQ, extras[k].frame).None?
  }

  /** Duplicates and noise leave the pending handshake, and everything else, as it was. */
  lemma {:induction false} ExtrasChangeNothing(s: ServerState, extras: seq<Extra>, discoverId: u64,
                                               advert: Advert, master: MasterKey)
    requires s.pending.Some? && s.pending.value.discoverId == discoverId
    requires Harmless(extras, s.pending.value.serverNonce, master)
    ensures AfterExtras(s, extras, discoverId, advert, master) == s
  {
    if extras != [] {
      ExtrasChangeNothing(s, extras[1..], discoverId, advert, master);
    }
  }

  /** The RESP a duplicate capture triggers is octet for octet the first one. */
  lemma DuplicateRespIdentical(s: ServerState, discoverId: u64, advert: Advert, master: MasterKey,
                               drawn: u64, drawnAgain: u64)
    ensures var (s1, resp) := BeginDiscover(s, discoverId, advert.deviceName, advert.ports, master, drawn);
            BeginDiscover(s1, discoverId, advert.deviceName, advert.ports, master, drawnAgain) == (s1, resp)
  {
  }

  /** Everything one attempt is made of: the parties' texts, the random draws, and what the link
      appends to each frame. */
  datatype Attempt = Attempt(
    name: Text, token: Option<Text>, user: Text, advert: Advert, master: MasterKey,
    discoverId: u64, nonce: seq<byte>, drawn: u64, clientNonce: u64,
    discoverPad: seq<Octet>, respPad: seq<Octet>, authReqPad: seq<Octet>, ackPad: seq<Octet>)
  {
    /** The texts and ports fit their frames. */
    predicate Fits() {
      && |nonce| == DISCOVER_NONCE_LEN
      && |name| + (if token.Some? then |token.value| else 0) + 40 <= 0xFFFF
      && |advert.deviceName| + 2 * |advert.ports| + 34 <= 0xFFFF
      && |user| + 58 <= 0xFFFF
    }
  }

  /** The server hears the DISCOVER and answers. */
  function Answer(a: Attempt, server: ServerState): Option<(ServerState, seq<Octet>)> {
    var discover := DiscoverFrame(a.name, a.token, a.master, a.discoverId, a.nonce).1;
    var f := Decode(discover + a.discoverPad);
    if f.Err? then None else
    var heard := OpenDiscover(f.value, a.master);
    if heard.None? then None else
    Some(BeginDiscover(server, heard.value.0, a.advert.deviceName, a.advert.ports, a.master, a.drawn))
  }

  /** The client adopts the RESP and asks to be authenticated. */
  function Request(a: Attempt, resp: seq<Octet>): Option<(ClientPhase, seq<Octet>)> {
    var f := Decode(resp + a.respPad);
    if f.Err? then None else
    var (phase, reply) := OnResp(Discovering(a.discoverId), f.value, a.user, a.master, a.clientNonce);
    if reply.None? then None else Some((phase, reply.value.1))
  }

  /** The server verifies the AUTH_REQ and, if it accepts, acknowledges. */
  function Verdict(a: Attempt, s: ServerState, request: seq<Octet>): Option<(VerifyResult, seq<Octet>)> {
    var f := Decode(request + a.authReqPad);
    if f.Err? then None else
    var r := VerifyAuth(s, f.value, a.master).1;
    if !r.Accepted? then None else Some((r, AckFrame(r.hkey, r.sid, r.serverProof)))
  }

  /** The client reads the AUTH_ACK. */
  function Conclude(a: Attempt, phase: ClientPhase, ack: seq<Octet>): Option<ClientPhase> {
    var f := Decode(ack + a.ackPad);
    if f.Err? then None else Some(OnAuthFrame(phase, f.value, a.master))
  }

  /** The whole exchange, with extras before the RESP is answered and again before the AUTH_REQ
      arrives: the client's final phase and the server's verdict. */
  function Exchange(a: Attempt, server: ServerState, early: seq<Extra>, late: seq<Extra>)
    : Option<(ClientPhase, VerifyResult)>
  {
    var answer := Answer(a, server);
    if answer.None? then None else
    var s := AfterExtras(answer.value.0, early, a.discoverId, a.advert, a.master);
    var request := Request(a, answer.value.1);
    if request.None? then None else
    var s' := AfterExtras(s, late, a.discoverId, a.advert, a.master);
    var verdict := Verdict(a, s', request.value.1);
    if verdict.None? then None else
    var phase := Conclude(a, request.value.0, verdict.value.1);
    if phase.None? then None else Some((phase.value, verdict.value.0))
  }

  function Answered(a: Attempt, server: ServerState): ServerState {
    BeginDiscover(server, a.discoverId, a.advert.deviceName, a.advert.ports, a.master, a.drawn).0
  }

  lemma AnswerReaches(a: Attempt, server: ServerState)
    requires a.Fits()
    ensures var s := Answered(a, server);
            Answer(a, server) == Some((s, RespFrame(a.master, s.pending.value.serverNonce,
              Resp(a.discoverId, a.advert.deviceName, a.advert.ports))))
  {
    DiscoverRoundTrip(a.discoverId, a.name, a.token);
    var f := SealDiscoverOpens(a.master, a.nonce, EncodeDiscover(a.discoverId, a.name, a.token), a.discoverPad);
    assert OpenDiscover(f, a.master) == Some((a.discoverId, a.name, NonEmpty(a.token)));
  }

  lemma RespOpens(master: MasterKey, serverNonce: u64, resp: Resp, padding: seq<Octet>) returns (f: Frame)
    requires |resp.deviceName| + 2 * |resp.ports| + 34 <= 0xFFFF
    ensures Decode(RespFrame(master, serverNonce, resp) + padding) == Ok(f) && f.msgType == TYPE_RESP
    ensures OpenResp(f, master, resp.discoverId) == Some((serverNonce, resp))
  {
    RespRoundTrip(resp);
    f := SealPrefixedOpens(HandshakeKeys(master, serverNonce), S2C, TYPE_RESP, 0, HS_RESP,
                           Be64(serverNonce), EncodeResp(resp), padding);
    ValuesOfClears(Be64(serverNonce));
    Be64RoundTrip(serverNonce);
  }

  lemma RequestReaches(a: Attempt, serverNonce: u64)
    requires a.Fits()
    ensures Request(a, RespFrame(a.master, serverNonce, Resp(a.discoverId, a.advert.deviceName, a.advert.ports)))
            == Some((AwaitAuth(serverNonce, a.clientNonce, HandshakeKeys(a.master, serverNonce)),
                     AuthReqFrame(a.user, a.master, serverNonce, a.clientNonce)))
  {
    hide Decode, OpenResp, RespFrame;
    var f := RespOpens(a.master, serverNonce, Resp(a.discoverId, a.advert.deviceName, a.advert.ports), a.respPad);
  }

  lemma VerdictReaches(a: Attempt, s: ServerState)
    requires a.Fits() && s.pending.Some?
    ensures var serverNonce := s.pending.value.serverNonce;
            var hkey := HandshakeKeys(a.master, serverNonce);
            var proof := AuthProofS2C(a.master, serverNonce, a.clientNonce);
            Verdict(a, s, AuthReqFrame(a.user, a.master, serverNonce, a.clientNonce))
            == Some((Accepted(s.nextSessionId, SessionKeys(a.master, serverNonce, a.clientNonce), proof, hkey, a.user),
                     AckFrame(hkey, s.nextSessionId, proof)))
  {
    var serverNonce := s.pending.value.serverNonce;
    AuthReqRoundTrip(a.user, a.clientNonce, AuthProofC2S(a.master, serverNonce, a.clientNonce));
    var f := SealFrameOpens(HandshakeKeys(a.master, serverNonce), C2S, TYPE_AUTH_REQ, 0, HS_AUTH_REQ,
                            AuthReqPlain(a.user, a.master, serverNonce, a.clientNonce), a.authReqPad);
  }

  lemma AckReaches(a: Attempt, serverNonce: u64, sid: u32)
    ensures var hkey := HandshakeKeys(a.master, serverNonce);
            Conclude(a, AwaitAuth(serverNonce, a.clientNonce, hkey),
                     AckFrame(hkey, sid, AuthProofS2C(a.master, serverNonce, a.clientNonce)))
            == Some(InSession(sid, SessionKeys(a.master, serverNonce, a.clientNonce)))
  {
    var f := SealFrameOpens(HandshakeKeys(a.master, serverNonce), S2C, TYPE_AUTH_ACK, sid, HS_AUTH_ACK,
                            AuthProofS2C(a.master, serverNonce, a.clientNonce), a.ackPad);
  }

  /** From the RESP on. */
  lemma FromAnswer(a: Attempt, s: ServerState)
    requires a.Fits() && s.pending.Some?
    ensures var serverNonce := s.pending.value.serverNonce;
            var keys := SessionKeys(a.master, serverNonce, a.clientNonce);
            var request := Request(a, RespFrame(a.master, serverNonce,
                                                Resp(a.discoverId, a.advert.deviceName, a.advert.ports)));
            && request.Some?
            && var verdict := Verdict(a, s, request.value.1);
            && verdict.Some? && verdict.value.0.Accepted?
            && verdict.value.0.sid == s.nextSessionId && verdict.value.0.user == a.user
            && verdict.value.0.keys == keys
            && Conclude(a, request.value.0, verdict.value.1) == Some(InSession(s.nextSessionId, keys))
  {
    RequestReaches(a, s.pending.value.serverNonce);
    VerdictReaches(a, s);
    AckReaches(a, s.pending.value.serverNonce, s.nextSessionId);
  }

  /** For all names, tokens, ports and nonces that fit a frame, and whatever the server was doing
      before, both sides end with the same session id and keys, and the server knows the user. */
  lemma HonestHandshakeCompletes(a: Attempt, server: ServerState, early: seq<Extra>, late: seq<Extra>)
    requires a.Fits()
    requires Harmless(early, Answered(a, server).pending.value.serverNonce, a.master)
    requires Harmless(late, Answered(a, server).pending.value.serverNonce, a.master)
    ensures var r := Exchange(a, server, early, late);
            && r.Some? && r.value.1.Accepted?
            && r.value.1.sid == server.nextSessionId && r.value.1.user == a.user
            && r.value.0 == InSession(r.value.1.sid, r.value.1.keys)
  {
    hide Answer, Request, Verdict, Conclude, RespFrame;
    var s := Answered(a, server);
    AnswerReaches(a, server);
    ExtrasChangeNothing(s, early, a.discoverId, a.advert, a.master);
    ExtrasChangeNothing(s, late, a.discoverId, a.advert, a.master);
    FromAnswer(a, s);
  }
}
