/** The client's handshake loop: up to five attempts, each waiting for a RESP and then for the
    reply to its AUTH_REQ among whatever else the link delivers. */
module ClientHandshake {
  import opened Octets
  import opened Frame
  import opened Crypto
  import opened Handshake
  import HonestHandshake

  /** A received link frame: the source address and the Terrain payload. */
  datatype LinkFrame = LinkFrame(src: seq<Octet>, payload: seq<Octet>)

  datatype Config = Config(name: Text, token: Option<Text>, user: Text, master: MasterKey)

  /** One attempt from outside: the random draws, and what arrives during each of the two waits. */
  datatype Attempt = Attempt(discoverId: u64, nonce: seq<byte>, clientNonce: u64,
                             first: seq<LinkFrame>, second: seq<LinkFrame>)

  /** How a wait ends: a frame of the awaited kind, a server of another version, or a timeout. */
  datatype Wait = Got(frame: LinkFrame) | OtherVersion(version: byte) | TimedOut

  predicate IsMismatch(f: LinkFrame) {
    var d := Decode(f.payload);
    d.Ok? && d.value.msgType == TYPE_VERSION_MISMATCH
  }

  predicate IsResp(f: LinkFrame) {
    var d := Decode(f.payload);
    d.Ok? && d.value.msgType == TYPE_RESP
  }

  predicate IsAuthReply(f: LinkFrame, serverMac: seq<Octet>, phase: ClientPhase, master: MasterKey) {
    var d := Decode(f.payload);
    && d.Ok? && (d.value.msgType == TYPE_AUTH_ACK || d.value.msgType == TYPE_AUTH_NACK)
    && (f.src == serverMac || AuthFrameAuthentic(phase, d.value, master))
  }

  function Awaited(frames: seq<LinkFrame>, wanted: LinkFrame -> bool): (r: Wait)
    ensures r.Got? ==> r.frame in frames && wanted(r.frame) && !IsMismatch(r.frame)
  {
    if frames == [] then TimedOut
    else if IsMismatch(frames[0]) then OtherVersion(Decode(frames[0].payload).value.version)
    else if wanted(frames[0]) then Got(frames[0])
    else Awaited(frames[1..], wanted)
  }

  /** `recv_until` on the frames that arrive before the deadline. */
  method RecvUntil(frames: seq<LinkFrame>, wanted: LinkFrame -> bool) returns (r: Wait)
    ensures r == Awaited(frames, wanted)
  {
    for i := 0 to |frames|
      invariant Awaited(frames[i..], wanted) == Awaited(frames, wanted)
    {
      assert frames[i..][0] == frames[i] && frames[i..][1..] == frames[i + 1..];
      var d := Decode(frames[i].payload);
      if d.Ok? && d.value.msgType == TYPE_VERSION_MISMATCH {
        return OtherVersion(d.value.version);
      }
      if wanted(frames[i]) {
        return Got(frames[i]);
      }
    }
    assert frames[|frames|..] == [];
    return TimedOut;
  }

  datatype Outcome =
    | Established(serverMac: seq<Octet>, ports: seq<u16>, sessionId: u32, keys: Keys)
    | RejectedBy(reason: Reason)
    | Incompatible(version: byte)
    | GaveUp

  /** An attempt ends the handshake, or leads to the next one. */
  datatype Step = Retry(phase: ClientPhase) | End(outcome: Outcome)

  function AfterReply(cfg: Config, serverMac: seq<Octet>, ports: seq<u16>, phase: ClientPhase, f: LinkFrame): Step
    requires Decode(f.payload).Ok?
  {
    match OnAuthFrame(phase, Decode(f.payload).value, cfg.master)
    case InSession(sid, keys) => End(Established(serverMac, ports, sid, keys))
    case Refused(reason) => End(RejectedBy(reason))
    case _ => End(GaveUp)
  }

  function AfterResp(cfg: Config, a: Attempt, f: LinkFrame): Step
    requires Decode(f.payload).Ok?
  {
    var (phase, reply) := OnResp(Discovering(a.discoverId), Decode(f.payload).value, cfg.user, cfg.master, a.clientNonce);
    if reply.None? then Retry(phase) else
    match Awaited(a.second, (g: LinkFrame) => IsAuthReply(g, f.src, phase, cfg.master))
    case Got(g) => AfterReply(cfg, f.src, reply.value.0.ports, phase, g)
    case OtherVersion(v) => End(Incompatible(v))
    case TimedOut => Retry(phase)
  }

  function RunAttempt(cfg: Config, a: Attempt): Step {
    match Awaited(a.first, (f: LinkFrame) => IsResp(f))
    case Got(f) => AfterResp(cfg, a, f)
    case OtherVersion(v) => End(Incompatible(v))
    case TimedOut => Retry(Discovering(a.discoverId))
  }

  /** The outcome of the attempts numbered from `k` on. */
  function RunAttempts(cfg: Config, attempts: nat -> Attempt, k: nat): Outcome
    decreases MAX_RETRIES - k
  {
    if k >= MAX_RETRIES then GaveUp else
    match RunAttempt(cfg, attempts(k))
    case End(outcome) => outcome
    case Retry(_) => RunAttempts(cfg, attempts, k + 1)
  }

  /** A frame sent: to one address, or to all. */
  datatype Sent = Sent(dst: Option<seq<Octet>>, raw: seq<Octet>)

  /** What one attempt sends: a DISCOVER to all, and an AUTH_REQ to where the adopted RESP came from. */
  function AttemptSends(cfg: Config, a: Attempt): seq<Sent> {
    var discover := Sent(None, DiscoverFrame(cfg.name, NonEmpty(cfg.token), cfg.master, a.discoverId, a.nonce).1);
    match Awaited(a.first, (f: LinkFrame) => IsResp(f))
    case Got(f) =>
      var reply := OnResp(Discovering(a.discoverId), Decode(f.payload).value, cfg.user, cfg.master, a.clientNonce).1;
      if reply.None? then [discover] else [discover, Sent(Some(f.src), reply.value.1)]
    case _ => [discover]
  }

  /** What the attempts numbered from `k` on send. */
  function AllSends(cfg: Config, attempts: nat -> Attempt, k: nat): seq<Sent>
    decreases MAX_RETRIES - k
  {
    if k >= MAX_RETRIES then [] else
    AttemptSends(cfg, attempts(k))
    + (if RunAttempt(cfg, attempts(k)).End? then [] else AllSends(cfg, attempts, k + 1))
  }

  /** `handshake`, the loop on the session object, with the frames it sends. */
  method Shake(sess: ClientSession, cfg: Config, attempts: nat -> Attempt) returns (outcome: Outcome, sent: seq<Sent>)
    requires sess.retries == 0
    modifies sess
    ensures outcome == RunAttempts(cfg, attempts, 0) && sent == AllSends(cfg, attempts, 0)
    ensures sess.retries <= 5
    ensures outcome.Established? ==> sess.phase == InSession(outcome.sessionId, outcome.keys)
    ensures outcome.RejectedBy? ==> sess.phase == Refused(outcome.reason)
  {
    hide RunAttempt, AttemptSends, RunAttempts, AllSends;
    sent := [];
    NoMoreAttempts(cfg, attempts);
    while sess.RetransmitAllowed()
      invariant sess.retries <= MAX_RETRIES
      invariant RunAttempts(cfg, attempts, 0) == RunAttempts(cfg, attempts, sess.retries)
      invariant AllSends(cfg, attempts, 0) == sent + AllSends(cfg, attempts, sess.retries)
      decreases MAX_RETRIES - sess.retries
    {
      ghost var sent0, k := sent, sess.retries;
      var a := attempts(sess.retries);
      sess.BumpRetry();
      var ended;
      ended, outcome, sent := Try(sess, cfg, a, sent);
      NextAttempt(cfg, attempts, k, sent0);
      if ended {
        return;
      }
    }
    return GaveUp, sent;
  }

  lemma NoMoreAttempts(cfg: Config, attempts: nat -> Attempt)
    ensures RunAttempts(cfg, attempts, MAX_RETRIES) == GaveUp && AllSends(cfg, attempts, MAX_RETRIES) == []
  {
  }

  lemma NextAttempt(cfg: Config, attempts: nat -> Attempt, k: nat, sent: seq<Sent>)
    requires k < MAX_RETRIES
    ensures var step := RunAttempt(cfg, attempts(k));
            && RunAttempts(cfg, attempts, k)
               == (if step.End? then step.outcome else RunAttempts(cfg, attempts, k + 1))
            && sent + AllSends(cfg, attempts, k)
               == sent + AttemptSends(cfg, attempts(k)) + (if step.End? then [] else AllSends(cfg, attempts, k + 1))
  {
    hide RunAttempt, AttemptSends;
  }

  /** One round of the loop. */
  method Try(sess: ClientSession, cfg: Config, a: Attempt, sent0: seq<Sent>)
    returns (ended: bool, outcome: Outcome, sent: seq<Sent>)
    modifies sess`phase
    ensures RunAttempt(cfg, a).End? <==> ended
    ensures ended ==> outcome == RunAttempt(cfg, a).outcome
    ensures sent == sent0 + AttemptSends(cfg, a)
    ensures ended && outcome.Established? ==> sess.phase == InSession(outcome.sessionId, outcome.keys)
    ensures ended && outcome.RejectedBy? ==> sess.phase == Refused(outcome.reason)
  {
    hide Decode, OnResp, OnAuthFrame, AuthFrameAuthentic, DiscoverFrame;
    outcome := GaveUp;
    var token := if cfg.token.Some? && cfg.token.value != [] then cfg.token else None;
    var discover := sess.SendDiscover(cfg.name, token, cfg.master, a.discoverId, a.nonce);
    StartsDiscovering(cfg.name, token, cfg.master, a.discoverId, a.nonce);
    sent := sent0 + [Sent(None, discover)];
    var waited := RecvUntil(a.first, (f: LinkFrame) => IsResp(f));
    if waited.OtherVersion? {
      return true, Incompatible(waited.version), sent;
    }
    if waited.TimedOut? {
      return false, outcome, sent;
    }
    var f := waited.frame;
    var d := Decode(f.payload);
    var reply := sess.ReceiveResp(d.value, cfg.user, cfg.master, a.clientNonce);
    if reply.None? {
      return false, outcome, sent;
    }
    sent := sent + [Sent(Some(f.src), reply.value.1)];
    var phase := sess.phase;
    waited := RecvUntil(a.second, (g: LinkFrame) => IsAuthReply(g, f.src, phase, cfg.master));
    if waited.OtherVersion? {
      return true, Incompatible(waited.version), sent;
    }
    if waited.TimedOut? {
      return false, outcome, sent;
    }
    d := Decode(waited.frame.payload);
    sess.ReceiveAuth(d.value, cfg.master);
    if sess.phase.InSession? {
      return true, Established(f.src, reply.value.0.ports, sess.phase.sessionId, sess.phase.keys), sent;
    }
    if sess.phase.Refused? {
      return true, RejectedBy(sess.phase.reason), sent;
    }
    return true, GaveUp, sent;
  }

  lemma StartsDiscovering(name: Text, token: Option<Text>, master: MasterKey, discoverId: u64, nonce: seq<byte>)
    ensures DiscoverFrame(name, token, master, discoverId, nonce).0 == Discovering(discoverId)
  {
  }

  // ---------------------------------------------------------------- other versions and silence

  /** Nothing that a wait would end at. */
  predicate Passed(frames: seq<LinkFrame>, wanted: LinkFrame -> bool) {
    forall i :: 0 <= i < |frames| ==> !wanted(frames[i]) && !(exists v :: OfOtherVersion(frames[i], v))
  }

  /** A VERSION_MISMATCH with a version byte; it may be of any version at all. */
  predicate OfOtherVersion(f: LinkFrame, version: byte) {
    Decode(f.payload).Ok? && Decode(f.payload).value.msgType == 0x09 && Decode(f.payload).value.version == version
  }

  /** The first frame that is a version mismatch ends any wait with its version. */
  lemma {:induction false} MismatchEndsWait(before: seq<LinkFrame>, f: LinkFrame, after: seq<LinkFrame>,
                                            wanted: LinkFrame -> bool, version: byte)
    requires Passed(before, wanted) && OfOtherVersion(f, version)
    ensures Awaited(before + [f] + after, wanted) == OtherVersion(version)
    decreases |before|
  {
    hide Decode;
    var all := before + [f] + after;
    if before != [] {
      assert all[0] == before[0] && all[1..] == before[1..] + [f] + after;
      assert !IsMismatch(before[0]) by { MismatchHasVersion(before[0]); }
      MismatchEndsWait(before[1..], f, after, wanted, version);
    }
  }

  lemma MismatchHasVersion(f: LinkFrame)
    ensures IsMismatch(f) <==> exists v :: OfOtherVersion(f, v)
  {
    hide Decode;
    if IsMismatch(f) {
      assert OfOtherVersion(f, Decode(f.payload).value.version);
    }
  }

  /** With neither the awaited nor a mismatch a wait runs into its deadline. */
  lemma {:induction false} SilenceTimesOut(frames: seq<LinkFrame>, wanted: LinkFrame -> bool)
    requires Passed(frames, wanted)
    ensures Awaited(frames, wanted) == TimedOut
  {
    hide Decode;
    if frames != [] {
      assert !IsMismatch(frames[0]) by { MismatchHasVersion(frames[0]); }
      SilenceTimesOut(frames[1..], wanted);
    }
  }

  /** The attempts before the k-th all led to the next one. */
  predicate Reached(cfg: Config, attempts: nat -> Attempt, k: nat) {
    k < 5 && forall i :: 0 <= i < k ==> RunAttempt(cfg, attempts(i)).Retry?
  }

  lemma {:induction false} OutcomeOfReached(cfg: Config, attempts: nat -> Attempt, k: nat, from: nat)
    requires Reached(cfg, attempts, k) && from <= k
    ensures RunAttempts(cfg, attempts, from) == RunAttempts(cfg, attempts, k)
    decreases k - from
  {
    hide RunAttempt;
    if from < k {
      OutcomeOfReached(cfg, attempts, k, from + 1);
    }
  }

  /** A server of another version answering the DISCOVER of the first attempt that hears anything
      ends the handshake with its version. */
  lemma OtherVersionEndsHandshake(cfg: Config, attempts: nat -> Attempt, k: nat,
                                  before: seq<LinkFrame>, f: LinkFrame, after: seq<LinkFrame>, version: byte)
    requires Reached(cfg, attempts, k) && attempts(k).first == before + [f] + after
    requires Passed(before, (x: LinkFrame) => IsResp(x)) && OfOtherVersion(f, version)
    ensures RunAttempts(cfg, attempts, 0) == Incompatible(version)
  {
    hide Decode, OnResp, AfterResp;
    OutcomeOfReached(cfg, attempts, k, 0);
    MismatchEndsWait(before, f, after, (x: LinkFrame) => IsResp(x), version);
  }

  /** So does one that answers the AUTH_REQ. */
  lemma OtherVersionEndsSecondWait(cfg: Config, attempts: nat -> Attempt, k: nat, serverNonce: u64, resp: Resp,
                                   respPad: seq<Octet>, mac: seq<Octet>, early: seq<LinkFrame>,
                                   afterResp: seq<LinkFrame>, before: seq<LinkFrame>, f: LinkFrame,
                                   after: seq<LinkFrame>, version: byte)
    requires Reached(cfg, attempts, k)
    requires resp.discoverId == attempts(k).discoverId && |resp.deviceName| + 2 * |resp.ports| + 34 <= 0xFFFF
    requires attempts(k).first == early + [LinkFrame(mac, RespFrame(cfg.master, serverNonce, resp) + respPad)] + afterResp
    requires Passed(early, (x: LinkFrame) => IsResp(x))
    requires attempts(k).second == before + [f] + after && OfOtherVersion(f, version)
    requires var phase := AwaitAuth(serverNonce, attempts(k).clientNonce, HandshakeKeys(cfg.master, serverNonce));
             Passed(before, (x: LinkFrame) => IsAuthReply(x, mac, phase, cfg.master))
    ensures RunAttempts(cfg, attempts, 0) == Incompatible(version)
  {
    hide Decode, OpenResp, RespFrame, HandshakeKeys, AfterReply;
    var a := attempts(k);
    OutcomeOfReached(cfg, attempts, k, 0);
    var r := RespAdopted(cfg, a, serverNonce, resp, respPad, mac, early, afterResp);
    var phase := AwaitAuth(serverNonce, a.clientNonce, HandshakeKeys(cfg.master, serverNonce));
    MismatchEndsWait(before, f, after, (x: LinkFrame) => IsAuthReply(x, mac, phase, cfg.master), version);
  }

  /** The RESP of an honest server is the frame the first wait ends at, and is adopted. */
  lemma RespAdopted(cfg: Config, a: Attempt, serverNonce: u64, resp: Resp, respPad: seq<Octet>, mac: seq<Octet>,
                    early: seq<LinkFrame>, afterResp: seq<LinkFrame>)
    returns (r: Frame)
    requires resp.discoverId == a.discoverId && |resp.deviceName| + 2 * |resp.ports| + 34 <= 0xFFFF
    requires a.first == early + [LinkFrame(mac, RespFrame(cfg.master, serverNonce, resp) + respPad)] + afterResp
    requires Passed(early, (x: LinkFrame) => IsResp(x))
    ensures Decode(RespFrame(cfg.master, serverNonce, resp) + respPad) == Ok(r)
    ensures Awaited(a.first, (x: LinkFrame) => IsResp(x))
            == Got(LinkFrame(mac, RespFrame(cfg.master, serverNonce, resp) + respPad))
    ensures OnResp(Discovering(a.discoverId), r, cfg.user, cfg.master, a.clientNonce)
            == (AwaitAuth(serverNonce, a.clientNonce, HandshakeKeys(cfg.master, serverNonce)),
                Some((resp, AuthReqFrame(cfg.user, cfg.master, serverNonce, a.clientNonce))))
  {
    hide Decode, OpenResp, RespFrame, HandshakeKeys, AuthReqFrame;
    r := HonestHandshake.RespOpens(cfg.master, serverNonce, resp, respPad);
    forall i | 0 <= i < |early|
      ensures !IsMismatch(early[i])
    {
      MismatchHasVersion(early[i]);
    }
    FirstWanted(early, LinkFrame(mac, RespFrame(cfg.master, serverNonce, resp) + respPad), afterResp,
                (x: LinkFrame) => IsResp(x));
  }

  /** An attempt that hears no RESP leads to the next; after five of them the client gives up. */
  lemma SilenceLeadsOn(cfg: Config, attempts: nat -> Attempt, k: nat)
    requires k < 5 && Passed(attempts(k).first, (x: LinkFrame) => IsResp(x))
    ensures RunAttempt(cfg, attempts(k)).Retry?
    ensures RunAttempts(cfg, attempts, k) == if k == 4 then GaveUp else RunAttempts(cfg, attempts, k + 1)
  {
    hide Decode, OnResp, AfterResp;
    SilenceTimesOut(attempts(k).first, (x: LinkFrame) => IsResp(x));
    assert k == 4 ==> RunAttempts(cfg, attempts, 5) == GaveUp;
  }

  // ---------------------------------------------------------------- what is sent

  /** Each attempt first sends to all a DISCOVER that a server with the psk reads as this client's
      name and token under the attempt's id. */
  lemma DiscoverSent(cfg: Config, a: Attempt, padding: seq<Octet>) returns (f: Frame)
    requires |a.nonce| == DISCOVER_NONCE_LEN
    requires |cfg.name| + (if cfg.token.Some? then |cfg.token.value| else 0) + 40 <= 0xFFFF
    ensures var sent := AttemptSends(cfg, a);
            && sent != [] && sent[0].dst == None && Decode(sent[0].raw + padding) == Ok(f)
            && f.msgType == TYPE_DISCOVER
            && OpenDiscover(f, cfg.master) == Some((a.discoverId, cfg.name, NonEmpty(cfg.token)))
  {
    hide Decode, OnResp, OpenDiscoverFrame, SealDiscover, EncodeDiscover, DecodeDiscover;
    var token := NonEmpty(cfg.token);
    DiscoverRoundTrip(a.discoverId, cfg.name, token);
    DiscoverLength(a.discoverId, cfg.name, token);
    f := SealDiscoverOpens(cfg.master, a.nonce, EncodeDiscover(a.discoverId, cfg.name, token), padding);
  }

  lemma DiscoverLength(discoverId: u64, name: Text, token: Option<Text>)
    ensures |EncodeDiscover(discoverId, name, token)|
            <= 12 + |name| + (if token.Some? then |token.value| else 0)
  {
  }

  /** After an honest RESP an AUTH_REQ goes to its address, which any server waiting under that nonce
      accepts with this client's nonce and user; before it none is sent. */
  lemma AuthReqSent(cfg: Config, a: Attempt, serverNonce: u64, resp: Resp, respPad: seq<Octet>, mac: seq<Octet>,
                    early: seq<LinkFrame>, afterResp: seq<LinkFrame>, s: ServerState, padding: seq<Octet>)
    returns (f: Frame)
    requires resp.discoverId == a.discoverId && |resp.deviceName| + 2 * |resp.ports| + 34 <= 0xFFFF
    requires |cfg.user| + 58 <= 0xFFFF
    requires a.first == early + [LinkFrame(mac, RespFrame(cfg.master, serverNonce, resp) + respPad)] + afterResp
    requires Passed(early, (x: LinkFrame) => IsResp(x))
    requires s.pending.Some? && s.pending.value.serverNonce == serverNonce
    ensures var sent := AttemptSends(cfg, a);
            && |sent| == 2 && sent[1].dst == Some(mac) && Decode(sent[1].raw + padding) == Ok(f)
            && f.msgType == TYPE_AUTH_REQ
            && var r := VerifyAuth(s, f, cfg.master).1;
               && r.Accepted? && r.user == cfg.user && r.keys == SessionKeys(cfg.master, serverNonce, a.clientNonce)
  {
    hide Decode, OpenResp, RespFrame, OpenFrame, SealFrame, EncodeAuthReq, DecodeAuthReq, DiscoverFrame;
    var g := RespAdopted(cfg, a, serverNonce, resp, respPad, mac, early, afterResp);
    var proof := AuthProofC2S(cfg.master, serverNonce, a.clientNonce);
    AuthReqRoundTrip(cfg.user, a.clientNonce, proof);
    AuthReqLength(cfg.user, a.clientNonce, proof);
    f := SealFrameOpens(HandshakeKeys(cfg.master, serverNonce), C2S, TYPE_AUTH_REQ, 0, HS_AUTH_REQ,
                        AuthReqPlain(cfg.user, cfg.master, serverNonce, a.clientNonce), padding);
  }

  function DiscoverOf(cfg: Config, a: Attempt): Sent {
    Sent(None, DiscoverFrame(cfg.name, NonEmpty(cfg.token), cfg.master, a.discoverId, a.nonce).1)
  }

  /** Five attempts without a RESP are five DISCOVERs to all, each with its own id. */
  lemma SilentSends(cfg: Config, attempts: nat -> Attempt)
    requires forall k :: 0 <= k < 5 ==> Passed(attempts(k).first, (x: LinkFrame) => IsResp(x))
    ensures RunAttempts(cfg, attempts, 0) == GaveUp
    ensures AllSends(cfg, attempts, 0)
            == [DiscoverOf(cfg, attempts(0)), DiscoverOf(cfg, attempts(1)), DiscoverOf(cfg, attempts(2)),
                DiscoverOf(cfg, attempts(3)), DiscoverOf(cfg, attempts(4))]
  {
    hide RunAttempt, AttemptSends, Passed, DiscoverOf;
    assert AllSends(cfg, attempts, 5) == [] && RunAttempts(cfg, attempts, 5) == GaveUp;
    hide RunAttempts, AllSends;
    OneSilent(cfg, attempts, 4);
    OneSilent(cfg, attempts, 3);
    OneSilent(cfg, attempts, 2);
    OneSilent(cfg, attempts, 1);
    OneSilent(cfg, attempts, 0);
  }

  lemma OneSilent(cfg: Config, attempts: nat -> Attempt, k: nat)
    requires k < 5 && Passed(attempts(k).first, (x: LinkFrame) => IsResp(x))
    ensures RunAttempts(cfg, attempts, k) == RunAttempts(cfg, attempts, k + 1)
    ensures AllSends(cfg, attempts, k) == [DiscoverOf(cfg, attempts(k))] + AllSends(cfg, attempts, k + 1)
  {
    hide RunAttempt, AttemptSends, DiscoverOf, Passed;
    SilentAttempt(cfg, attempts(k));
  }

  lemma SilentAttempt(cfg: Config, a: Attempt)
    requires Passed(a.first, (x: LinkFrame) => IsResp(x))
    ensures RunAttempt(cfg, a).Retry?
    ensures AttemptSends(cfg, a) == [DiscoverOf(cfg, a)]
  {
    hide Decode, OnResp, AfterResp, DiscoverFrame;
    SilenceTimesOut(a.first, (x: LinkFrame) => IsResp(x));
  }

  // ---------------------------------------------------------------- refusals

  /** A server's sealed NACK, from any address, ends the attempt with the reason it gives. */
  lemma SealedNackReported(cfg: Config, a: Attempt, serverNonce: u64, resp: Resp, respPad: seq<Octet>,
                           mac: seq<Octet>, early: seq<LinkFrame>, afterResp: seq<LinkFrame>,
                           reason: Text, nackPad: seq<Octet>, nackMac: seq<Octet>,
                           late: seq<LinkFrame>, afterNack: seq<LinkFrame>)
    requires resp.discoverId == a.discoverId && |resp.deviceName| + 2 * |resp.ports| + 34 <= 0xFFFF
    requires |reason| + 18 <= 0xFFFF
    requires a.first == early + [LinkFrame(mac, RespFrame(cfg.master, serverNonce, resp) + respPad)] + afterResp
    requires Passed(early, (x: LinkFrame) => IsResp(x))
    requires a.second
             == late + [LinkFrame(nackMac, NackFrame(HandshakeKeys(cfg.master, serverNonce), reason) + nackPad)]
                + afterNack
    requires var phase := AwaitAuth(serverNonce, a.clientNonce, HandshakeKeys(cfg.master, serverNonce));
             Passed(late, (x: LinkFrame) => IsAuthReply(x, mac, phase, cfg.master))
    ensures RunAttempt(cfg, a) == End(RejectedBy(Told(reason)))
  {
    hide Decode, OpenResp, RespFrame, HandshakeKeys, NackFrame, AckProves;
    var r := RespAdopted(cfg, a, serverNonce, resp, respPad, mac, early, afterResp);
    var phase := AwaitAuth(serverNonce, a.clientNonce, HandshakeKeys(cfg.master, serverNonce));
    var nack := LinkFrame(nackMac, NackFrame(HandshakeKeys(cfg.master, serverNonce), reason) + nackPad);
    var g := SealedNackOpens(cfg.master, serverNonce, reason, nackPad);
    ReplyTaken(cfg, a, mac, phase, late, nack, afterNack, g);
  }

  lemma SealedNackOpens(master: MasterKey, serverNonce: u64, reason: Text, padding: seq<Octet>) returns (g: Frame)
    requires |reason| + 18 <= 0xFFFF
    ensures Decode(NackFrame(HandshakeKeys(master, serverNonce), reason) + padding) == Ok(g)
    ensures g.msgType == TYPE_AUTH_NACK && OpenNack(HandshakeKeys(master, serverNonce), g) == Some(reason)
  {
    hide Decode, Utf8;
    AuthNackRoundTrip(reason, []);
    assert EncodeAuthNack(reason) + [] == EncodeAuthNack(reason);
    PutStrLength(reason);
    g := SealFrameOpens(HandshakeKeys(master, serverNonce), S2C, TYPE_AUTH_NACK, 0, HS_AUTH_NACK,
                        EncodeAuthNack(reason), padding);
  }

  /** The second wait ends at a reply that is authentic or comes from the adopted address. */
  lemma ReplyTaken(cfg: Config, a: Attempt, mac: seq<Octet>, phase: ClientPhase, late: seq<LinkFrame>,
                   reply: LinkFrame, after: seq<LinkFrame>, g: Frame)
    requires a.second == late + [reply] + after && Decode(reply.payload) == Ok(g)
    requires g.msgType == TYPE_AUTH_ACK || g.msgType == TYPE_AUTH_NACK
    requires reply.src == mac || AuthFrameAuthentic(phase, g, cfg.master)
    requires Passed(late, (x: LinkFrame) => IsAuthReply(x, mac, phase, cfg.master))
    ensures Awaited(a.second, (x: LinkFrame) => IsAuthReply(x, mac, phase, cfg.master)) == Got(reply)
  {
    hide Decode, AuthFrameAuthentic;
    forall i | 0 <= i < |late|
      ensures !IsMismatch(late[i])
    {
      MismatchHasVersion(late[i]);
    }
    FirstWanted(late, reply, after, (x: LinkFrame) => IsAuthReply(x, mac, phase, cfg.master));
  }

  /** A plaintext lockout NACK from the adopted server's own address does the same. */
  lemma PlaintextNackReported(cfg: Config, a: Attempt, serverNonce: u64, resp: Resp, respPad: seq<Octet>,
                              mac: seq<Octet>, early: seq<LinkFrame>, afterResp: seq<LinkFrame>,
                              reason: Text, nackPad: seq<Octet>, late: seq<LinkFrame>, afterNack: seq<LinkFrame>)
    requires resp.discoverId == a.discoverId && |resp.deviceName| + 2 * |resp.ports| + 34 <= 0xFFFF
    requires |reason| + 2 <= 0xFFFF
    requires a.first == early + [LinkFrame(mac, RespFrame(cfg.master, serverNonce, resp) + respPad)] + afterResp
    requires Passed(early, (x: LinkFrame) => IsResp(x))
    requires a.second
             == late + [LinkFrame(mac, Encode(TYPE_AUTH_NACK, 0, 0, EncodeAuthNack(reason)) + nackPad)] + afterNack
    requires var phase := AwaitAuth(serverNonce, a.clientNonce, HandshakeKeys(cfg.master, serverNonce));
             Passed(late, (x: LinkFrame) => IsAuthReply(x, mac, phase, cfg.master))
    ensures RunAttempt(cfg, a) == End(RejectedBy(Told(reason)))
  {
    hide Decode, OpenResp, RespFrame, HandshakeKeys, Encode, AckProves, EncodeAuthNack, DecodeAuthNack, OpenFrame;
    var r := RespAdopted(cfg, a, serverNonce, resp, respPad, mac, early, afterResp);
    var phase := AwaitAuth(serverNonce, a.clientNonce, HandshakeKeys(cfg.master, serverNonce));
    var nack := LinkFrame(mac, Encode(TYPE_AUTH_NACK, 0, 0, EncodeAuthNack(reason)) + nackPad);
    var g := PlaintextNackDecodes(phase.hkey, reason, nackPad);
    ReplyTaken(cfg, a, mac, phase, late, nack, afterNack, g);
  }

  lemma PlaintextNackDecodes(hkey: Keys, reason: Text, padding: seq<Octet>) returns (g: Frame)
    requires |reason| + 2 <= 0xFFFF
    ensures Decode(Encode(TYPE_AUTH_NACK, 0, 0, EncodeAuthNack(reason)) + padding) == Ok(g)
    ensures g.msgType == TYPE_AUTH_NACK && DecodeAuthNack(g.payload) == Ok(reason)
    ensures OpenFrame(hkey, S2C, HS_AUTH_NACK, g) == None
  {
    hide Decode, Encode, Utf8;
    AuthNackRoundTrip(reason, []);
    assert EncodeAuthNack(reason) + [] == EncodeAuthNack(reason);
    PutStrLength(reason);
    FrameRoundTrip(TYPE_AUTH_NACK, 0, 0, EncodeAuthNack(reason), padding);
    g := Decode(Encode(TYPE_AUTH_NACK, 0, 0, EncodeAuthNack(reason)) + padding).value;
    assert g.payload[0].Clear?;
  }

  // ---------------------------------------------------------------- what the loop guarantees

  /** Why a session was established: an authentic RESP to this attempt's own discover id, whose
      source and ports are reported, and an AUTH_ACK proving the server for the nonces of both. */
  predicate Proven(cfg: Config, a: Attempt, o: Outcome, resp: LinkFrame, ack: LinkFrame) {
    && o.Established? && resp in a.first && ack in a.second && resp.src == o.serverMac
    && Decode(resp.payload).Ok? && Decode(ack.payload).Ok?
    && var r := OpenResp(Decode(resp.payload).value, cfg.master, a.discoverId);
    && r.Some? && r.value.1.ports == o.ports && r.value.1.discoverId == a.discoverId
    && var phase := AwaitAuth(r.value.0, a.clientNonce, HandshakeKeys(cfg.master, r.value.0));
    && var f := Decode(ack.payload).value;
    && f.msgType == TYPE_AUTH_ACK && f.sessionId == o.sessionId && AckProves(phase, f, cfg.master)
    && o.keys == SessionKeys(cfg.master, r.value.0, a.clientNonce)
  }

  lemma RespOpened(f: Frame, master: MasterKey, discoverId: u64)
    ensures OpenResp(f, master, discoverId).Some? ==>
              OpenResp(f, master, discoverId).value.1.discoverId == discoverId
  {
  }

  lemma AttemptProven(cfg: Config, a: Attempt) returns (resp: LinkFrame, ack: LinkFrame)
    requires RunAttempt(cfg, a).End? && RunAttempt(cfg, a).outcome.Established?
    ensures Proven(cfg, a, RunAttempt(cfg, a).outcome, resp, ack)
  {
    hide Decode, OpenResp, AckProves, OpenNack, DecodeAuthNack;
    resp := Awaited(a.first, (f: LinkFrame) => IsResp(f)).frame;
    var d := Decode(resp.payload).value;
    RespOpened(d, cfg.master, a.discoverId);
    var (phase, reply) := OnResp(Discovering(a.discoverId), d, cfg.user, cfg.master, a.clientNonce);
    var mac := resp.src;
    ack := Awaited(a.second, (g: LinkFrame) => IsAuthReply(g, mac, phase, cfg.master)).frame;
  }

  /** A handshake that reports a session got it in one of its at most five attempts, proven. */
  lemma EstablishedIsProven(cfg: Config, attempts: nat -> Attempt, from: nat)
    returns (k: nat, resp: LinkFrame, ack: LinkFrame)
    requires RunAttempts(cfg, attempts, from).Established?
    ensures from <= k < MAX_RETRIES && Proven(cfg, attempts(k), RunAttempts(cfg, attempts, from), resp, ack)
    decreases MAX_RETRIES - from
  {
    hide Proven, RunAttempt;
    if RunAttempt(cfg, attempts(from)).End? {
      k := from;
      resp, ack := AttemptProven(cfg, attempts(from));
    } else {
      k, resp, ack := EstablishedIsProven(cfg, attempts, from + 1);
    }
  }

  /** A frame that is neither awaited nor of another version changes no wait, wherever it arrives. */
  lemma {:induction false} NoiseIgnored(before: seq<LinkFrame>, noise: LinkFrame, after: seq<LinkFrame>,
                                        wanted: LinkFrame -> bool)
    requires !IsMismatch(noise) && !wanted(noise)
    ensures Awaited(before + [noise] + after, wanted) == Awaited(before + after, wanted)
    decreases |before|
  {
    hide IsMismatch, Decode;
    var with, without := before + [noise] + after, before + after;
    if before == [] {
      assert with[1..] == after && without == after;
    } else {
      assert with[0] == before[0] && without[0] == before[0];
      assert with[1..] == before[1..] + [noise] + after && without[1..] == before[1..] + after;
      NoiseIgnored(before[1..], noise, after, wanted);
    }
  }

  lemma ClearPayload(payload: seq<Octet>)
    requires AllClear(payload) && Decode(payload).Ok?
    ensures AllClear(Decode(payload).value.payload)
  {
  }

  /** A plaintext frame, such as a forged lockout NACK, from any address but the adopted server's
      cannot end, or otherwise influence, an attempt, whenever it arrives. */
  lemma ForeignPlaintextIgnored(cfg: Config, a: Attempt, before: seq<LinkFrame>, noise: LinkFrame,
                                after: seq<LinkFrame>)
    requires a.second == before + [noise] + after
    requires AllClear(noise.payload) && !IsMismatch(noise)
    requires var w := Awaited(a.first, (f: LinkFrame) => IsResp(f)); w.Got? ==> noise.src != w.frame.src
    ensures RunAttempt(cfg, a) == RunAttempt(cfg, a.(second := before + after))
  {
    hide Decode, OnResp, OnAuthFrame, AuthFrameAuthentic, IsMismatch, AfterReply, AllClear;
    var w := Awaited(a.first, (f: LinkFrame) => IsResp(f));
    if w.Got? && Decode(w.frame.payload).Ok? {
      var phase := OnResp(Discovering(a.discoverId), Decode(w.frame.payload).value, cfg.user, cfg.master,
                          a.clientNonce).0;
      if Decode(noise.payload).Ok? {
        ClearPayload(noise.payload);
        PlaintextNeverAuthentic(phase, Decode(noise.payload).value, cfg.master);
      }
      var mac := w.frame.src;
      NoiseIgnored(before, noise, after, (g: LinkFrame) => IsAuthReply(g, mac, phase, cfg.master));
    }
  }

  lemma {:induction false} FirstWanted(before: seq<LinkFrame>, f: LinkFrame, after: seq<LinkFrame>,
                                       wanted: LinkFrame -> bool)
    requires forall i :: 0 <= i < |before| ==> !IsMismatch(before[i]) && !wanted(before[i])
    requires !IsMismatch(f) && wanted(f)
    ensures Awaited(before + [f] + after, wanted) == Got(f)
    decreases |before|
  {
    hide IsMismatch, Decode;
    var all := before + [f] + after;
    if before != [] {
      assert all[1..] == before[1..] + [f] + after;
      FirstWanted(before[1..], f, after, wanted);
    }
  }

  /** What an honest server's two frames do in an attempt: adopted, and acknowledged. */
  lemma HonestFramesAccepted(cfg: Config, a: Attempt, serverNonce: u64, resp: Resp, sid: u32,
                             respPad: seq<Octet>, ackPad: seq<Octet>)
    returns (f: Frame, g: Frame)
    requires resp.discoverId == a.discoverId && |resp.deviceName| + 2 * |resp.ports| + 34 <= 0xFFFF
    ensures var hkey := HandshakeKeys(cfg.master, serverNonce);
            var phase := AwaitAuth(serverNonce, a.clientNonce, hkey);
            var proof := AuthProofS2C(cfg.master, serverNonce, a.clientNonce);
            && Decode(RespFrame(cfg.master, serverNonce, resp) + respPad) == Ok(f) && f.msgType == TYPE_RESP
            && OpenResp(f, cfg.master, a.discoverId) == Some((serverNonce, resp))
            && Decode(AckFrame(hkey, sid, proof) + ackPad) == Ok(g)
            && g.msgType == TYPE_AUTH_ACK && g.sessionId == sid && AckProves(phase, g, cfg.master)
  {
    f := HonestHandshake.RespOpens(cfg.master, serverNonce, resp, respPad);
    var f' := SealPrefixedOpens(HandshakeKeys(cfg.master, serverNonce), S2C, TYPE_RESP, 0, HS_RESP,
                                Be64(serverNonce), EncodeResp(resp), respPad);
    g := SealFrameOpens(HandshakeKeys(cfg.master, serverNonce), S2C, TYPE_AUTH_ACK, sid, HS_AUTH_ACK,
                        AuthProofS2C(cfg.master, serverNonce, a.clientNonce), ackPad);
  }

  /** An attempt that meets an honest server succeeds, with the server's session id and keys,
      whatever else arrives first, as long as that is neither a RESP nor a reply from the server's
      address; the acknowledgement may come from any address. */
  lemma HonestAttemptSucceeds(cfg: Config, a: Attempt, serverNonce: u64, resp: Resp, sid: u32,
                              respPad: seq<Octet>, ackPad: seq<Octet>, mac: seq<Octet>, ackMac: seq<Octet>,
                              early: seq<LinkFrame>, late: seq<LinkFrame>,
                              afterResp: seq<LinkFrame>, afterAck: seq<LinkFrame>)
    requires resp.discoverId == a.discoverId && |resp.deviceName| + 2 * |resp.ports| + 34 <= 0xFFFF
    requires a.first == early + [LinkFrame(mac, RespFrame(cfg.master, serverNonce, resp) + respPad)] + afterResp
    requires var hkey := HandshakeKeys(cfg.master, serverNonce);
             var proof := AuthProofS2C(cfg.master, serverNonce, a.clientNonce);
             a.second == late + [LinkFrame(ackMac, AckFrame(hkey, sid, proof) + ackPad)] + afterAck
    requires forall i :: 0 <= i < |early| ==> !IsMismatch(early[i]) && !IsResp(early[i])
    requires var phase := AwaitAuth(serverNonce, a.clientNonce, HandshakeKeys(cfg.master, serverNonce));
             forall i :: 0 <= i < |late| ==> !IsMismatch(late[i]) && !IsAuthReply(late[i], mac, phase, cfg.master)
    ensures RunAttempt(cfg, a)
            == End(Established(mac, resp.ports, sid, SessionKeys(cfg.master, serverNonce, a.clientNonce)))
  {
    hide Decode, OpenResp, RespFrame, AckFrame, AckProves, HandshakeKeys, OpenNack, DecodeAuthNack;
    var f, g := HonestFramesAccepted(cfg, a, serverNonce, resp, sid, respPad, ackPad);
    var hkey := HandshakeKeys(cfg.master, serverNonce);
    var phase := AwaitAuth(serverNonce, a.clientNonce, hkey);
    var proof := AuthProofS2C(cfg.master, serverNonce, a.clientNonce);
    FirstWanted(early, LinkFrame(mac, RespFrame(cfg.master, serverNonce, resp) + respPad), afterResp,
                (x: LinkFrame) => IsResp(x));
    FirstWanted(late, LinkFrame(ackMac, AckFrame(hkey, sid, proof) + ackPad), afterAck,
                (x: LinkFrame) => IsAuthReply(x, mac, phase, cfg.master));
  }
}
