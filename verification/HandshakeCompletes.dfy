/** From every state that any run of clients, servers and network can reach, an attempt whose five
    frames get through ends in a session both sides agree on. */
module HandshakeCompletes {
  import opened Octets
  import opened Frame
  import opened Crypto
  import opened Handshake
  import opened HonestHandshake
  import opened HandshakeRuns

  /** The attempt is one of this psk and these advertised ports, and the link pads with bytes. */
  predicate Fitting(cfg: Config, a: Attempt) {
    && a.Fits() && a.master == cfg.master && a.advert == Advert(cfg.deviceName, cfg.ports)
    && AllClear(a.discoverPad) && AllClear(a.respPad) && AllClear(a.authReqPad) && AllClear(a.ackPad)
  }

  /** The random draws of the attempt are new. */
  predicate Fresh(w: World, a: Attempt) {
    && a.discoverId !in w.drawn && a.nonce !in w.discovers
    && a.drawn !in w.drawn + {a.discoverId} && a.clientNonce !in w.drawn + {a.discoverId, a.drawn}
  }

  function ServerAt(w: World, m: nat): ServerState {
    if m in w.servers then w.servers[m] else NEW_SERVER
  }

  lemma EmittedIsKnown(cfg: Config, w: World, raw: seq<Octet>, padding: seq<Octet>)
    requires BoxesIn(raw) <= w.sealed && AllClear(padding)
    ensures Known(cfg, w, raw + padding)
  {
    var all := raw + padding;
    forall k | 0 <= k < |all| && all[k].Cipher?
      ensures all[k].box in w.sealed
    {
      assert k < |raw| && all[k] == raw[k];
      assert raw[k].box in BoxesIn(raw);
    }
  }

  function DiscoverRaw(a: Attempt): seq<Octet> {
    DiscoverFrame(a.name, a.token, a.master, a.discoverId, a.nonce).1
  }

  function RespRaw(a: Attempt, serverNonce: u64): seq<Octet> {
    RespFrame(a.master, serverNonce, Resp(a.discoverId, a.advert.deviceName, a.advert.ports))
  }

  function AuthReqRaw(a: Attempt, serverNonce: u64): seq<Octet> {
    AuthReqFrame(a.user, a.master, serverNonce, a.clientNonce)
  }

  function AckRaw(a: Attempt, serverNonce: u64, sid: u32): seq<Octet> {
    AckFrame(HandshakeKeys(a.master, serverNonce), sid, AuthProofS2C(a.master, serverNonce, a.clientNonce))
  }

  function Waiting(a: Attempt, serverNonce: u64): ClientPhase {
    AwaitAuth(serverNonce, a.clientNonce, HandshakeKeys(a.master, serverNonce))
  }

  // ---------------------------------------------------------------- the five steps

  lemma AttemptStarts(cfg: Config, w: World, c: nat, a: Attempt) returns (e: HandshakeRuns.Event)
    requires Fitting(cfg, a) && Fresh(w, a)
    ensures Possible(cfg, w, e)
    ensures var w' := Step(cfg, w, e);
            && w'.clients == w.clients[c := Discovering(a.discoverId)] && w'.servers == w.servers
            && w'.drawn == w.drawn + {a.discoverId} && BoxesIn(DiscoverRaw(a)) <= w'.sealed
  {
    hide SealDiscover, EncodeDiscover, BoxesIn;
    e := Discover(c, a.name, a.token, a.discoverId, a.nonce);
  }

  lemma DiscoverDelivered(cfg: Config, w: World, m: nat, a: Attempt) returns (e: HandshakeRuns.Event)
    requires Fitting(cfg, a) && BoxesIn(DiscoverRaw(a)) <= w.sealed && a.drawn !in w.drawn
    ensures Possible(cfg, w, e)
    ensures var w', s := Step(cfg, w, e), Answered(a, ServerAt(w, m));
            && w'.clients == w.clients && w'.servers == w.servers[m := s]
            && w'.drawn == w.drawn + {a.drawn} && BoxesIn(RespRaw(a, s.pending.value.serverNonce)) <= w'.sealed
  {
    hide DiscoverFrame, OpenDiscover, BoxesIn, RespFrame, Decode, Known;
    e := DiscoverArrives(m, DiscoverRaw(a) + a.discoverPad, a.drawn);
    EmittedIsKnown(cfg, w, DiscoverRaw(a), a.discoverPad);
    var f := DiscoverHeard(a);
  }

  lemma DiscoverHeard(a: Attempt) returns (f: Frame)
    requires a.Fits()
    ensures Decode(DiscoverRaw(a) + a.discoverPad) == Ok(f) && f.msgType == TYPE_DISCOVER
    ensures OpenDiscover(f, a.master) == Some((a.discoverId, a.name, NonEmpty(a.token)))
  {
    hide SealDiscover, EncodeDiscover, DecodeDiscover, OpenDiscoverFrame, Decode;
    DiscoverRoundTrip(a.discoverId, a.name, a.token);
    DiscoverFits(a);
    f := SealDiscoverOpens(a.master, a.nonce, EncodeDiscover(a.discoverId, a.name, a.token), a.discoverPad);
  }

  lemma DiscoverFits(a: Attempt)
    requires a.Fits()
    ensures DISCOVER_NONCE_LEN + |EncodeDiscover(a.discoverId, a.name, a.token)| + TAG_LEN <= 0xFFFF
  {
  }

  lemma RespDelivered(cfg: Config, w: World, c: nat, a: Attempt, serverNonce: u64)
    returns (e: HandshakeRuns.Event)
    requires Fitting(cfg, a) && BoxesIn(RespRaw(a, serverNonce)) <= w.sealed && a.clientNonce !in w.drawn
    requires c in w.clients && w.clients[c] == Discovering(a.discoverId)
    ensures Possible(cfg, w, e)
    ensures var w' := Step(cfg, w, e);
            && w'.clients == w.clients[c := Waiting(a, serverNonce)] && w'.servers == w.servers
            && BoxesIn(AuthReqRaw(a, serverNonce)) <= w'.sealed
  {
    hide BoxesIn, RespFrame, Decode, OpenResp, AuthReqFrame, HandshakeKeys;
    e := RespArrives(c, RespRaw(a, serverNonce) + a.respPad, a.user, a.clientNonce);
    EmittedIsKnown(cfg, w, RespRaw(a, serverNonce), a.respPad);
    var f := RespOpens(a.master, serverNonce, Resp(a.discoverId, a.advert.deviceName, a.advert.ports), a.respPad);
  }

  lemma AuthReqDelivered(cfg: Config, w: World, m: nat, a: Attempt, serverNonce: u64)
    returns (e: HandshakeRuns.Event)
    requires Fitting(cfg, a) && BoxesIn(AuthReqRaw(a, serverNonce)) <= w.sealed
    requires m in w.servers && w.servers[m].pending.Some? && w.servers[m].pending.value.serverNonce == serverNonce
    ensures Possible(cfg, w, e)
    ensures var w', sid := Step(cfg, w, e), w.servers[m].nextSessionId;
            && w'.clients == w.clients && m in w'.servers && w'.servers[m].session == Some(sid)
            && BoxesIn(AckRaw(a, serverNonce, sid)) <= w'.sealed
  {
    hide BoxesIn, Decode, AuthReqFrame, HandshakeKeys, AckFrame, VerifyAuth;
    e := AuthReqArrives(m, AuthReqRaw(a, serverNonce) + a.authReqPad);
    EmittedIsKnown(cfg, w, AuthReqRaw(a, serverNonce), a.authReqPad);
    var f := RequestAccepted(a, w.servers[m]);
  }

  lemma RequestAccepted(a: Attempt, s: ServerState) returns (f: Frame)
    requires a.Fits() && s.pending.Some?
    ensures var serverNonce := s.pending.value.serverNonce;
            && Decode(AuthReqRaw(a, serverNonce) + a.authReqPad) == Ok(f) && f.msgType == TYPE_AUTH_REQ
            && VerifyAuth(s, f, a.master)
               == (ServerState(Some(s.nextSessionId), None, (s.nextSessionId + 1) % TWO32),
                   Accepted(s.nextSessionId, SessionKeys(a.master, serverNonce, a.clientNonce),
                            AuthProofS2C(a.master, serverNonce, a.clientNonce), HandshakeKeys(a.master, serverNonce),
                            a.user))
  {
    hide Decode, EncodeAuthReq, DecodeAuthReq, OpenFrame, SealFrame;
    var serverNonce := s.pending.value.serverNonce;
    var proof := AuthProofC2S(a.master, serverNonce, a.clientNonce);
    AuthReqRoundTrip(a.user, a.clientNonce, proof);
    AuthReqLength(a.user, a.clientNonce, proof);
    f := SealFrameOpens(HandshakeKeys(a.master, serverNonce), C2S, TYPE_AUTH_REQ, 0, HS_AUTH_REQ,
                        AuthReqPlain(a.user, a.master, serverNonce, a.clientNonce), a.authReqPad);
  }

  lemma AckDelivered(cfg: Config, w: World, c: nat, a: Attempt, serverNonce: u64, sid: u32)
    returns (e: HandshakeRuns.Event)
    requires Fitting(cfg, a) && BoxesIn(AckRaw(a, serverNonce, sid)) <= w.sealed
    requires c in w.clients && w.clients[c] == Waiting(a, serverNonce)
    ensures Possible(cfg, w, e)
    ensures Step(cfg, w, e).servers == w.servers
    ensures Step(cfg, w, e).clients
            == w.clients[c := InSession(sid, SessionKeys(a.master, serverNonce, a.clientNonce))]
  {
    hide BoxesIn, Decode, AckFrame, OnAuthFrame;
    e := AuthReplyArrives(c, AckRaw(a, serverNonce, sid) + a.ackPad);
    EmittedIsKnown(cfg, w, AckRaw(a, serverNonce, sid), a.ackPad);
    AckReaches(a, serverNonce, sid);
  }

  // ---------------------------------------------------------------- insiders

  /** An insider can make any pending nonce meet its refusal: an AUTH_REQ with a wrong proof opens,
      is rejected, and the rejection is the nonce's one verdict. */
  lemma WrongProofRefused(cfg: Config, w: World, m: nat, user: Text, clientNonce: u64, proof: seq<Octet>)
    returns (e: HandshakeRuns.Event)
    requires cfg.insiders && m in w.servers && w.servers[m].pending.Some? && |user| + 58 <= 0xFFFF && |proof| == 32
    requires proof != AuthProofC2S(cfg.master, w.servers[m].pending.value.serverNonce, clientNonce)
    ensures Possible(cfg, w, e)
    ensures var n := w.servers[m].pending.value.serverNonce;
            var w' := Step(cfg, w, e);
            && w'.spent == w.spent + [n] && w'.nacks == w.nacks[n := AUTH_FAILED]
            && w'.servers == w.servers[m := w.servers[m].(pending := None)]
  {
    hide Decode, OpenFrame, EncodeAuthReq, DecodeAuthReq, AuthProofC2S, HandshakeKeys, NackFrame, BoxesIn, SealFrame;
    var s := w.servers[m];
    var hkey := HandshakeKeys(cfg.master, s.pending.value.serverNonce);
    var plain := EncodeAuthReq(user, clientNonce, proof);
    e := AuthReqArrives(m, SealFrame(hkey, C2S, TYPE_AUTH_REQ, 0, HS_AUTH_REQ, plain) + []);
    assert Known(cfg, w, e.raw) by {
      InsiderFrameKnown(cfg, w, s.pending.value.serverNonce, plain);
    }
    AuthReqLength(user, clientNonce, proof);
    AuthReqRoundTrip(user, clientNonce, proof);
    var f := SealFrameOpens(hkey, C2S, TYPE_AUTH_REQ, 0, HS_AUTH_REQ, plain, []);
  }

  lemma InsiderFrameKnown(cfg: Config, w: World, serverNonce: u64, plain: seq<Octet>)
    requires cfg.insiders
    ensures Known(cfg, w, SealFrame(HandshakeKeys(cfg.master, serverNonce), C2S, TYPE_AUTH_REQ, 0, HS_AUTH_REQ, plain) + [])
  {
    hide EncodeHeader;
  }

  // ---------------------------------------------------------------- the whole attempt

  lemma RunExtended(cfg: Config, events: seq<HandshakeRuns.Event>, e: HandshakeRuns.Event)
    requires PossibleRun(cfg, events) && Possible(cfg, Run(cfg, events), e)
    ensures PossibleRun(cfg, events + [e]) && Run(cfg, events + [e]) == Step(cfg, Run(cfg, events), e)
  {
    hide Step, Possible;
    assert (events + [e])[..|events|] == events;
  }

  /** Whatever happened before, a client that draws fresh values and a server that is reached are in
      the same session five frames later, on keys no other client has. */
  lemma AttemptCompletes(cfg: Config, before: seq<HandshakeRuns.Event>, c: nat, m: nat, a: Attempt)
    returns (after: seq<HandshakeRuns.Event>)
    requires PossibleRun(cfg, before) && Fitting(cfg, a) && Fresh(Run(cfg, before), a)
    ensures |after| == |before| + 5 && after[..|before|] == before && PossibleRun(cfg, after)
    ensures var w := Run(cfg, after);
            && c in w.clients && w.clients[c].InSession?
            && m in w.servers && w.servers[m].session == Some(w.clients[c].sessionId)
            && w.clients[c].sessionId == ServerAt(Run(cfg, before), m).nextSessionId
    ensures var w := Run(cfg, after);
            forall other :: other in w.clients && other != c && w.clients[other].InSession?
              ==> w.clients[other].keys != w.clients[c].keys
  {
    hide Step, Possible, Run, PossibleRun, Fitting, DiscoverRaw, RespRaw, AuthReqRaw, AckRaw, BoxesIn, Waiting;
    var w0 := Run(cfg, before);
    var e1 := AttemptStarts(cfg, w0, c, a);
    RunExtended(cfg, before, e1);
    var w1 := Run(cfg, before + [e1]);
    var e2 := DiscoverDelivered(cfg, w1, m, a);
    RunExtended(cfg, before + [e1], e2);
    var w2 := Run(cfg, before + [e1] + [e2]);
    var n := w2.servers[m].pending.value.serverNonce;
    var e3 := RespDelivered(cfg, w2, c, a, n);
    RunExtended(cfg, before + [e1] + [e2], e3);
    var w3 := Run(cfg, before + [e1] + [e2] + [e3]);
    var e4 := AuthReqDelivered(cfg, w3, m, a, n);
    RunExtended(cfg, before + [e1] + [e2] + [e3], e4);
    var w4 := Run(cfg, before + [e1] + [e2] + [e3] + [e4]);
    var e5 := AckDelivered(cfg, w4, c, a, n, w3.servers[m].nextSessionId);
    after := before + [e1] + [e2] + [e3] + [e4] + [e5];
    RunExtended(cfg, before + [e1] + [e2] + [e3] + [e4], e5);
    var w := Run(cfg, after);
    forall other | other in w.clients && other != c && w.clients[other].InSession?
      ensures w.clients[other].keys != w.clients[c].keys
    {
      SessionsNotShared(cfg, after, other, c);
    }
  }
}
