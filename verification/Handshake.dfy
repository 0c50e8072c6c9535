/** The client and server halves of the Terrain handshake as state machines: frames in, frames
    out.  Random draws are arguments. */
module Handshake {
  import opened Octets
  import opened Frame
  import opened Crypto

  const MAX_RETRIES: nat := 5

  /** Open a DISCOVER frame: needs no peer state. */
  function OpenDiscover(f: Frame, master: MasterKey): Option<(u64, Text, Option<Text>)> {
    var plain := OpenDiscoverFrame(master, f);
    if plain.None? then None else
    var r := DecodeDiscover(plain.value);
    if r.Err? then None else Some(r.value)
  }

  // ---------------------------------------------------------------- client

  datatype ClientPhase =
    | Discovering(discoverId: u64)
    | AwaitAuth(serverNonce: u64, clientNonce: u64, hkey: Keys)
    | InSession(sessionId: u32, keys: Keys)
    | Refused(reason: Reason)

  /** Why an attempt ended: the two fixed texts of the client, or what the NACK said. */
  datatype Reason = ServerAuthenticationFailed | Unknown | Told(text: Text)

  function DiscoverFrame(name: Text, token: Option<Text>, master: MasterKey,
                         discoverId: u64, nonce: seq<byte>): (ClientPhase, seq<Octet>) {
    (Discovering(discoverId), SealDiscover(master, 0, nonce, EncodeDiscover(discoverId, name, token)))
  }

  function AuthReqPlain(user: Text, master: MasterKey, serverNonce: u64, clientNonce: u64): seq<Octet> {
    EncodeAuthReq(user, clientNonce, AuthProofC2S(master, serverNonce, clientNonce))
  }

  function AuthReqFrame(user: Text, master: MasterKey, serverNonce: u64, clientNonce: u64): seq<Octet> {
    SealFrame(HandshakeKeys(master, serverNonce), C2S, TYPE_AUTH_REQ, 0, HS_AUTH_REQ,
              AuthReqPlain(user, master, serverNonce, clientNonce))
  }

  /** The authentic RESP a frame holds for a given attempt, with the server nonce it carries. */
  function OpenResp(f: Frame, master: MasterKey, discoverId: u64): Option<(u64, Resp)> {
    if |f.payload| < 8 + TAG_LEN then None else
    var serverNonce := From64(Values(f.payload[..8]));
    var plain := OpenPrefixed(HandshakeKeys(master, serverNonce), S2C, HS_RESP, f, 8);
    if plain.None? then None else
    var resp := DecodeResp(plain.value);
    if resp.Err? || resp.value.discoverId != discoverId then None else Some((serverNonce, resp.value))
  }

  function OnResp(phase: ClientPhase, f: Frame, user: Text, master: MasterKey, clientNonce: u64)
    : (ClientPhase, Option<(Resp, seq<Octet>)>)
  {
    if !phase.Discovering? then (phase, None) else
    var r := OpenResp(f, master, phase.discoverId);
    if r.None? then (phase, None) else
    (AwaitAuth(r.value.0, clientNonce, HandshakeKeys(master, r.value.0)),
     Some((r.value.1, AuthReqFrame(user, master, r.value.0, clientNonce))))
  }

  function OpenNack(hkey: Keys, f: Frame): Option<Text> {
    var plain := OpenFrame(hkey, S2C, HS_AUTH_NACK, f);
    if plain.None? then None else
    var r := DecodeAuthNack(plain.value);
    if r.Err? then None else Some(r.value)
  }

  /** An AUTH_ACK opened under the handshake keys and carrying the expected server proof. */
  predicate AckProves(phase: ClientPhase, f: Frame, master: MasterKey)
    requires phase.AwaitAuth?
  {
    var plain := OpenFrame(phase.hkey, S2C, HS_AUTH_ACK, f);
    plain.Some? && DecodeAuthAck(plain.value).Ok?
    && DecodeAuthAck(plain.value).value == AuthProofS2C(master, phase.serverNonce, phase.clientNonce)
  }

  predicate AuthFrameAuthentic(phase: ClientPhase, f: Frame, master: MasterKey) {
    phase.AwaitAuth? &&
    if f.msgType == TYPE_AUTH_ACK then AckProves(phase, f, master)
    else if f.msgType == TYPE_AUTH_NACK then OpenNack(phase.hkey, f).Some?
    else false
  }

  function OnAuthFrame(phase: ClientPhase, f: Frame, master: MasterKey): ClientPhase {
    if f.msgType == TYPE_AUTH_ACK then
      if phase.AwaitAuth? && AckProves(phase, f, master)
      then InSession(f.sessionId, SessionKeys(master, phase.serverNonce, phase.clientNonce))
      else Refused(ServerAuthenticationFailed)
    else if f.msgType == TYPE_AUTH_NACK then
      if phase.AwaitAuth? then
        var sealed := OpenNack(phase.hkey, f);
        if sealed.Some? then Refused(Told(sealed.value)) else
        var plaintext := DecodeAuthNack(f.payload);
        if plaintext.Ok? then Refused(Told(plaintext.value)) else Refused(Unknown)
      else Refused(Unknown)
    else phase
  }

  /** While waiting for the verdict, a session starts on an AUTH_ACK exactly when the frame is
      authentic from any source address. */
  lemma AuthenticAckIffSession(phase: ClientPhase, f: Frame, master: MasterKey)
    requires phase.AwaitAuth?
    ensures OnAuthFrame(phase, f, master).InSession?
            <==> f.msgType == TYPE_AUTH_ACK && AuthFrameAuthentic(phase, f, master)
  {
  }

  /** A frame whose payload holds no ciphertext, such as a plaintext lockout NACK, is never
      authentic, and at most refuses the attempt. */
  lemma PlaintextNeverAuthentic(phase: ClientPhase, f: Frame, master: MasterKey)
    requires AllClear(f.payload)
    ensures !AuthFrameAuthentic(phase, f, master)
    ensures OnAuthFrame(phase, f, master).InSession? ==> phase.InSession?
  {
  }

  /** How each reply ends an attempt: an ACK that does not prove the server refuses it, out of turn
      too; a NACK refuses it with the sealed reason, or else the plaintext one, or else none; other
      types change nothing. */
  lemma ReplyDecides(phase: ClientPhase, f: Frame, master: MasterKey)
    ensures f.msgType == 0x04 && !AuthFrameAuthentic(phase, f, master) ==>
              OnAuthFrame(phase, f, master) == Refused(ServerAuthenticationFailed)
    ensures f.msgType == 0x05 && !phase.AwaitAuth? ==> OnAuthFrame(phase, f, master) == Refused(Unknown)
    ensures f.msgType == 0x05 && phase.AwaitAuth? ==>
              var sealed, plain := OpenNack(phase.hkey, f), DecodeAuthNack(f.payload);
              && (forall text :: sealed == Some(text) ==> OnAuthFrame(phase, f, master) == Refused(Told(text)))
              && (forall text :: sealed.None? && plain == Ok(text) ==>
                    OnAuthFrame(phase, f, master) == Refused(Told(text)))
              && (sealed.None? && plain.Err? ==> OnAuthFrame(phase, f, master) == Refused(Unknown))
    ensures f.msgType != 0x04 && f.msgType != 0x05 ==> OnAuthFrame(phase, f, master) == phase
  {
    hide AckProves, OpenNack, DecodeAuthNack;
  }

  class ClientSession {
    var phase: ClientPhase
    var retries: nat

    constructor ()
      ensures phase == Discovering(0) && retries == 0
    {
      phase := Discovering(0);
      retries := 0;
    }

    function RetransmitAllowed(): bool
      reads this
    {
      retries < MAX_RETRIES
    }

    method BumpRetry()
      modifies this`retries
      ensures retries == old(retries) + 1
    {
      retries := retries + 1;
    }

    method SendDiscover(name: Text, token: Option<Text>, master: MasterKey, discoverId: u64, nonce: seq<byte>)
      returns (raw: seq<Octet>)
      modifies this`phase
      ensures (phase, raw) == DiscoverFrame(name, token, master, discoverId, nonce)
    {
      phase := Discovering(discoverId);
      var payload := EncodeDiscover(discoverId, name, token);
      raw := SealDiscover(master, 0, nonce, payload);
    }

    method ReceiveResp(f: Frame, user: Text, master: MasterKey, clientNonce: u64)
      returns (reply: Option<(Resp, seq<Octet>)>)
      modifies this`phase
      ensures (phase, reply) == OnResp(old(phase), f, user, master, clientNonce)
    {
      if !phase.Discovering? || |f.payload| < 8 + TAG_LEN {
        return None;
      }
      var serverNonce := From64(Values(f.payload[..8]));
      var hkey := HandshakeKeys(master, serverNonce);
      var plain := OpenPrefixed(hkey, S2C, HS_RESP, f, 8);
      if plain.None? {
        return None;
      }
      var resp := DecodeRespPayload(plain.value);
      if resp.Err? || resp.value.discoverId != phase.discoverId {
        return None;
      }
      var proof := AuthProofC2S(master, serverNonce, clientNonce);
      phase := AwaitAuth(serverNonce, clientNonce, hkey);
      var payload := EncodeAuthReq(user, clientNonce, proof);
      return Some((resp.value, SealFrame(hkey, C2S, TYPE_AUTH_REQ, 0, HS_AUTH_REQ, payload)));
    }

    method ReceiveAuth(f: Frame, master: MasterKey)
      modifies this`phase
      ensures phase == OnAuthFrame(old(phase), f, master)
    {
      if f.msgType == TYPE_AUTH_ACK {
        if phase.AwaitAuth? && AckProves(phase, f, master) {
          phase := InSession(f.sessionId, SessionKeys(master, phase.serverNonce, phase.clientNonce));
        } else {
          phase := Refused(ServerAuthenticationFailed);
        }
      } else if f.msgType == TYPE_AUTH_NACK {
        if phase.AwaitAuth? {
          var nack := OpenNack(phase.hkey, f);
          var plaintext := DecodeAuthNack(f.payload);
          if nack.Some? {
            phase := Refused(Told(nack.value));
          } else if plaintext.Ok? {
            phase := Refused(Told(plaintext.value));
          } else {
            phase := Refused(Unknown);
          }
        } else {
          phase := Refused(Unknown);
        }
      }
    }
  }

  // ---------------------------------------------------------------- server

  datatype Pending = Pending(discoverId: u64, serverNonce: u64)

  datatype ServerState = ServerState(session: Option<u32>, pending: Option<Pending>, nextSessionId: u32)

  const NEW_SERVER: ServerState := ServerState(None, None, 1)

  datatype VerifyResult =
    | Accepted(sid: u32, keys: Keys, serverProof: seq<Octet>, hkey: Keys, user: Text)
    | Rejected(hkey: Keys)
    | Unauthentic

  function RespFrame(master: MasterKey, serverNonce: u64, resp: Resp): seq<Octet> {
    SealPrefixed(HandshakeKeys(master, serverNonce), S2C, TYPE_RESP, 0, HS_RESP,
                 Be64(serverNonce), EncodeResp(resp))
  }

  /** `drawn` is the random nonce of a new attempt; a repeated discover id keeps the old one. */
  function BeginDiscover(s: ServerState, discoverId: u64, name: Text, ports: seq<u16>,
                         master: MasterKey, drawn: u64): (ServerState, seq<Octet>)
  {
    var serverNonce := if s.pending.Some? && s.pending.value.discoverId == discoverId
                       then s.pending.value.serverNonce else drawn;
    (s.(pending := Some(Pending(discoverId, serverNonce))),
     RespFrame(master, serverNonce, Resp(discoverId, name, ports)))
  }

  function TakeServerNonce(s: ServerState): (ServerState, Option<u64>) {
    (s.(pending := None), if s.pending.Some? then Some(s.pending.value.serverNonce) else None)
  }

  /** The session id counter is a u32 and wraps in release builds. */
  function VerifyAuth(s: ServerState, f: Frame, master: MasterKey): (ServerState, VerifyResult) {
    if s.pending.None? then (s, Unauthentic) else
    var serverNonce := s.pending.value.serverNonce;
    var hkey := HandshakeKeys(master, serverNonce);
    var plain := OpenFrame(hkey, C2S, HS_AUTH_REQ, f);
    if plain.None? then (s, Unauthentic) else
    var r := DecodeAuthReq(plain.value);
    if r.Err? then (s, Unauthentic) else
    var req := r.value;
    if req.proof == AuthProofC2S(master, serverNonce, req.nonce) then
      var sid := s.nextSessionId;
      (ServerState(Some(sid), None, (sid + 1) % TWO32),
       Accepted(sid, SessionKeys(master, serverNonce, req.nonce),
                AuthProofS2C(master, serverNonce, req.nonce), hkey, req.user))
    else
      (s.(pending := None), Rejected(hkey))
  }

  function AckFrame(hkey: Keys, sid: u32, serverProof: seq<Octet>): seq<Octet> {
    SealFrame(hkey, S2C, TYPE_AUTH_ACK, sid, HS_AUTH_ACK, EncodeAuthAck(serverProof))
  }

  function NackFrame(hkey: Keys, reason: Text): seq<Octet> {
    SealFrame(hkey, S2C, TYPE_AUTH_NACK, 0, HS_AUTH_NACK, EncodeAuthNack(reason))
  }

  /** Only an accepted AUTH_REQ touches the session; it takes the next id, which below 2^32 is
      larger than every earlier one.  A frame that is no attempt changes nothing, a refused one
      only spends the pending nonce. */
  lemma VerifyAuthEffects(s: ServerState, f: Frame, master: MasterKey)
    ensures var (s', r) := VerifyAuth(s, f, master);
            match r
            case Unauthentic => s' == s
            case Rejected(_) => s.pending.Some? && s' == s.(pending := None)
            case Accepted(sid, _, _, _, _) =>
              && s.pending.Some? && s'.pending.None? && s'.session == Some(sid)
              && sid == s.nextSessionId && s'.nextSessionId == (sid + 1) % TWO32
              && (sid < 0xFFFF_FFFF <==> s'.nextSessionId > sid)
  {
  }

  /** Anything the server loop does to one peer's handshake state. */
  datatype ServerCall =
    | CallDiscover(discoverId: u64, name: Text, ports: seq<u16>, drawn: u64)
    | CallTakeNonce
    | CallVerify(frame: Frame)

  function AfterCall(s: ServerState, c: ServerCall, master: MasterKey): ServerState {
    match c
    case CallDiscover(id, name, ports, drawn) => BeginDiscover(s, id, name, ports, master, drawn).0
    case CallTakeNonce => TakeServerNonce(s).0
    case CallVerify(f) => VerifyAuth(s, f, master).0
  }

  function AfterCalls(calls: seq<ServerCall>, master: MasterKey): ServerState {
    if calls == [] then NEW_SERVER
    else AfterCall(AfterCalls(calls[..|calls| - 1], master), calls[|calls| - 1], master)
  }

  /** The session ids handed out, in order. */
  function Sids(calls: seq<ServerCall>, master: MasterKey): seq<u32> {
    if calls == [] then [] else
    var before, last := calls[..|calls| - 1], calls[|calls| - 1];
    var ids := Sids(before, master);
    if last.CallVerify? && VerifyAuth(AfterCalls(before, master), last.frame, master).1.Accepted?
    then ids + [VerifyAuth(AfterCalls(before, master), last.frame, master).1.sid] else ids
  }

  lemma CallEffects(s: ServerState, c: ServerCall, master: MasterKey)
    ensures var s' := AfterCall(s, c, master);
            if c.CallVerify? && VerifyAuth(s, c.frame, master).1.Accepted? then
              var sid := VerifyAuth(s, c.frame, master).1.sid;
              sid == s.nextSessionId && s'.session == Some(sid) && s'.nextSessionId == (sid + 1) % TWO32
            else s'.session == s.session && s'.nextSessionId == s.nextSessionId
  {
    hide VerifyAuth, RespFrame;
    if c.CallVerify? {
      VerifyAuthEffects(s, c.frame, master);
    }
  }

  /** The value of a 32-bit counter that was incremented n times from zero. */
  function Wrapped(n: nat): u32 {
    n % TWO32
  }

  lemma WrappedOne()
    ensures Wrapped(1) == 1
  {
  }

  lemma WrappedSucc(n: nat)
    ensures (Wrapped(n) + 1) % TWO32 == Wrapped(n + 1)
  {
  }

  /** A peer's session ids count 1, 2, 3 and so on, modulo 2^32, and its session is the one of
      the last acceptance: nothing but an acceptance starts, replaces or ends it. */
  lemma {:induction false} SidsCountUp(calls: seq<ServerCall>, master: MasterKey)
    ensures var ids := Sids(calls, master);
            && (forall k :: 0 <= k < |ids| ==> ids[k] == Wrapped(k + 1))
            && AfterCalls(calls, master).nextSessionId == Wrapped(|ids| + 1)
            && AfterCalls(calls, master).session == if ids == [] then None else Some(ids[|ids| - 1])
  {
    hide VerifyAuth, AfterCall, Wrapped;
    if calls == [] {
      WrappedOne();
    } else {
      var before := calls[..|calls| - 1];
      SidsCountUp(before, master);
      CallEffects(AfterCalls(before, master), calls[|calls| - 1], master);
      WrappedSucc(|Sids(before, master)| + 1);
    }
  }

  class ServerSession {
    var session: Option<u32>
    var pending: Option<Pending>
    var nextSessionId: u32

    ghost function State(): ServerState
      reads this
    {
      ServerState(session, pending, nextSessionId)
    }

    constructor ()
      ensures State() == NEW_SERVER
    {
      session, pending, nextSessionId := None, None, 1;
    }

    method Discover(discoverId: u64, name: Text, ports: seq<u16>, master: MasterKey, drawn: u64)
      returns (raw: seq<Octet>)
      modifies this`pending
      ensures (State(), raw) == BeginDiscover(old(State()), discoverId, name, ports, master, drawn)
    {
      var serverNonce;
      if pending.Some? && pending.value.discoverId == discoverId {
        serverNonce := pending.value.serverNonce;
      } else {
        serverNonce := drawn;
        pending := Some(Pending(discoverId, serverNonce));
      }
      var hkey := HandshakeKeys(master, serverNonce);
      var payload := EncodeResp(Resp(discoverId, name, ports));
      raw := SealPrefixed(hkey, S2C, TYPE_RESP, 0, HS_RESP, Be64(serverNonce), payload);
    }

    method TakeNonce() returns (serverNonce: Option<u64>)
      modifies this`pending
      ensures (State(), serverNonce) == TakeServerNonce(old(State()))
    {
      serverNonce := if pending.Some? then Some(pending.value.serverNonce) else None;
      pending := None;
    }

    method Verify(f: Frame, master: MasterKey) returns (r: VerifyResult)
      modifies this
      ensures (State(), r) == VerifyAuth(old(State()), f, master)
    {
      if pending.None? {
        return Unauthentic;
      }
      var serverNonce := pending.value.serverNonce;
      var hkey := HandshakeKeys(master, serverNonce);
      var plain := OpenFrame(hkey, C2S, HS_AUTH_REQ, f);
      if plain.None? {
        return Unauthentic;
      }
      var req := DecodeAuthReq(plain.value);
      if req.Err? {
        return Unauthentic;
      }
      var clientNonce := req.value.nonce;
      pending := None;
      if req.value.proof != AuthProofC2S(master, serverNonce, clientNonce) {
        return Rejected(hkey);
      }
      var sid := nextSessionId;
      nextSessionId := (nextSessionId + 1) % TWO32;
      session := Some(sid);
      return Accepted(sid, SessionKeys(master, serverNonce, clientNonce),
                      AuthProofS2C(master, serverNonce, clientNonce), hkey, req.value.user);
    }
  }
}
