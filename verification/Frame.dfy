/** The Terrain frame format: the 16-byte header and the typed payload codecs. */
module Frame {
  import opened Octets

  const MAGIC: u32 := 0x54455252
  const VERSION: byte := 0x05
  const HEADER_LEN: nat := 16

  const TYPE_DISCOVER: byte := 0x01
  const TYPE_RESP: byte := 0x02
  const TYPE_AUTH_REQ: byte := 0x03
  const TYPE_AUTH_ACK: byte := 0x04
  const TYPE_AUTH_NACK: byte := 0x05
  const TYPE_KEEPALIVE: byte := 0x06
  const TYPE_DATA: byte := 0x07
  const TYPE_TEARDOWN: byte := 0x08
  const TYPE_VERSION_MISMATCH: byte := 0x09

  datatype FrameError = TooShort | BadMagic | BadVersion | BadPayload | BadUtf8

  datatype Result<+T> = Ok(value: T) | Err(error: FrameError) {
    predicate IsFailure() { Err? }
    function PropagateFailure<U>(): Result<U>
      requires Err?
    {
      Err(error)
    }
    function Extract(): T
      requires Ok?
    {
      value
    }
  }

  datatype Frame = Frame(
    version: byte, msgType: byte, sessionId: u32, seqNo: u32, len: u16, payload: seq<Octet>)

  // ---------------------------------------------------------------- header

  function EncodeHeader(msgType: byte, sessionId: u32, seqNo: u32, len: u16): (r: seq<byte>)
    ensures |r| == HEADER_LEN
  {
    Be32(MAGIC) + [VERSION, msgType] + Be32(sessionId) + Be16(len) + Be32(seqNo)
  }

  /** A plaintext frame; the length field is the payload length truncated to 16 bits. */
  function Encode(msgType: byte, sessionId: u32, seqNo: u32, payload: seq<Octet>): seq<Octet> {
    Clears(EncodeHeader(msgType, sessionId, seqNo, |payload| % 0x1_0000)) + payload
  }

  function Decode(data: seq<Octet>): Result<Frame> {
    if |data| < HEADER_LEN then Err(TooShort) else
    var h := Values(data[..HEADER_LEN]);
    if From32(h[..4]) != MAGIC then Err(BadMagic) else
    if h[4] != VERSION && h[5] != TYPE_VERSION_MISMATCH then Err(BadVersion) else
    var len := From16(h[10..12]);
    if |data| < HEADER_LEN + len then Err(BadPayload) else
    Ok(Frame(h[4], h[5], From32(h[6..10]), From32(h[12..16]), len,
             data[HEADER_LEN..HEADER_LEN + len]))
  }

  lemma HeaderFields(msgType: byte, sessionId: u32, seqNo: u32, len: u16)
    ensures var h := EncodeHeader(msgType, sessionId, seqNo, len);
            && From32(h[..4]) == MAGIC && h[4] == VERSION && h[5] == msgType
            && From32(h[6..10]) == sessionId && From16(h[10..12]) == len
            && From32(h[12..16]) == seqNo
  {
    var h := EncodeHeader(msgType, sessionId, seqNo, len);
    assert h[..4] == Be32(MAGIC);
    assert h[6..10] == Be32(sessionId);
    assert h[10..12] == Be16(len);
    assert h[12..16] == Be32(seqNo);
    Be32RoundTrip(MAGIC);
    Be32RoundTrip(sessionId);
    Be32RoundTrip(seqNo);
  }

  /** The header octet by octet: magic, version, type, session id, length and sequence number, each
      with its most significant byte first. */
  lemma HeaderLayout(msgType: byte, sessionId: u32, seqNo: u32, len: u16)
    ensures EncodeHeader(msgType, sessionId, seqNo, len)
            == [0x54, 0x45, 0x52, 0x52, 0x05, msgType,
                sessionId / 0x100_0000, sessionId / 0x1_0000 % 0x100, sessionId / 0x100 % 0x100, sessionId % 0x100,
                len / 0x100, len % 0x100,
                seqNo / 0x100_0000, seqNo / 0x1_0000 % 0x100, seqNo / 0x100 % 0x100, seqNo % 0x100]
  {
    hide Be32;
    BigEndian(MAGIC);
    BigEndian(sessionId);
    BigEndian(seqNo);
  }

  /** What a receiver does with any bytes: each error where the program finds it, and otherwise the
      fields at their places; a frame of another version is refused unless it is the type that says
      so. */
  lemma DecodedFields(data: seq<Octet>)
    ensures |data| < 16 <==> Decode(data) == Err(TooShort)
    ensures |data| >= 16 ==>
              var h := Values(data[..16]);
              var len := (h[10] as int) * 0x100 + h[11];
              if h[..4] != [0x54, 0x45, 0x52, 0x52] then Decode(data) == Err(BadMagic)
              else if h[4] != 5 && h[5] != 9 then Decode(data) == Err(BadVersion)
              else if |data| < 16 + len then Decode(data) == Err(BadPayload)
              else && Decode(data).Ok?
                   && var f := Decode(data).value;
                      && f.version == h[4] && f.msgType == h[5] && f.len == len && f.payload == data[16..16 + len]
                      && f.sessionId == (((h[6] as int) * 0x100 + h[7]) * 0x100 + h[8]) * 0x100 + h[9]
                      && f.seqNo == (((h[12] as int) * 0x100 + h[13]) * 0x100 + h[14]) * 0x100 + h[15]
  {
    hide From32, Values;
    if |data| >= 16 {
      var h := Values(data[..16]);
      FromBigEndian(h[..4]);
      FromBigEndian(h[6..10]);
      FromBigEndian(h[12..16]);
      MagicOnly(h[..4]);
    }
  }

  lemma MagicOnly(s: seq<byte>)
    requires |s| == 4
    ensures From32(s) == MAGIC <==> s == [0x54, 0x45, 0x52, 0x52]
  {
    From32RoundTrip(s);
    BigEndian(MAGIC);
    FromBigEndian(s);
  }

  /** No two headers of the current version agree unless all their fields do. */
  lemma HeaderInjective(t1: byte, s1: u32, q1: u32, l1: u16, t2: byte, s2: u32, q2: u32, l2: u16)
    requires EncodeHeader(t1, s1, q1, l1) == EncodeHeader(t2, s2, q2, l2)
    ensures t1 == t2 && s1 == s2 && q1 == q2 && l1 == l2
  {
    HeaderFields(t1, s1, q1, l1);
    HeaderFields(t2, s2, q2, l2);
  }

  /** A header whose length field covers a prefix of what follows decodes to exactly that
      prefix, whatever trails it. */
  lemma DecodeHeaderAndBody(msgType: byte, sessionId: u32, seqNo: u32, len: u16, body: seq<Octet>)
    requires len <= |body|
    ensures Decode(Clears(EncodeHeader(msgType, sessionId, seqNo, len)) + body)
            == Ok(Frame(VERSION, msgType, sessionId, seqNo, len, body[..len]))
  {
    var h := EncodeHeader(msgType, sessionId, seqNo, len);
    var data := Clears(h) + body;
    assert data[..HEADER_LEN] == Clears(h);
    ValuesOfClears(h);
    HeaderFields(msgType, sessionId, seqNo, len);
    assert data[HEADER_LEN..HEADER_LEN + len] == body[..len];
  }

  /** A frame survives encoding, link padding and decoding exactly when its payload fits the
      16-bit length field. */
  lemma FrameRoundTrip(msgType: byte, sessionId: u32, seqNo: u32, payload: seq<Octet>, padding: seq<Octet>)
    ensures var r := Decode(Encode(msgType, sessionId, seqNo, payload) + padding);
            && r.Ok?
            && r.value.(payload := payload, len := 0)
               == Frame(VERSION, msgType, sessionId, seqNo, 0, payload)
            && (r.value.payload == payload <==> |payload| <= 0xFFFF)
            && r.value.len == |r.value.payload|
  {
    var len := |payload| % 0x1_0000;
    var h := EncodeHeader(msgType, sessionId, seqNo, len);
    assert Encode(msgType, sessionId, seqNo, payload) + padding
        == Clears(h) + (payload + padding);
    DecodeHeaderAndBody(msgType, sessionId, seqNo, len, payload + padding);
    if |payload| <= 0xFFFF {
      assert (payload + padding)[..len] == payload;
    }
  }

  /** The header a receiver rebuilds from the decoded fields is the one it received, for every
      frame of the current version; the decoded length is the payload's. */
  lemma HeaderRebuilt(data: seq<Octet>)
    requires Decode(data).Ok?
    ensures var f := Decode(data).value;
            && f.len == |f.payload|
            && (f.version == VERSION <==>
                EncodeHeader(f.msgType, f.sessionId, f.seqNo, f.len) == Values(data[..HEADER_LEN]))
  {
    hide From16, From32, Be16, Be32, Values;
    var f := Decode(data).value;
    var h := Values(data[..HEADER_LEN]);
    assert f.version == h[4];
    HeaderFields(f.msgType, f.sessionId, f.seqNo, f.len);
    if f.version == VERSION {
      From32RoundTrip(h[..4]);
      From32RoundTrip(h[6..10]);
      From16RoundTrip(h[10..12]);
      From32RoundTrip(h[12..16]);
      HeaderParts(h);
    }
  }

  lemma HeaderParts(h: seq<byte>)
    requires |h| == HEADER_LEN
    ensures h == h[..4] + [h[4], h[5]] + h[6..10] + h[10..12] + h[12..16]
  {
  }

  // ---------------------------------------------------------------- primitives

  function PutStr(s: seq<byte>): seq<Octet> {
    Clears(Be16(|s| % 0x1_0000)) + Clears(s)
  }

  function PutU64(v: u64): seq<Octet> {
    Clears(Be64(v))
  }

  function GetStr(data: seq<Octet>, off: nat): Result<(Text, nat)> {
    if off + 2 > |data| then Err(BadPayload) else
    var len := From16(Values(data[off..off + 2]));
    if off + 2 + len > |data| then Err(BadPayload) else
    var s := Values(data[off + 2..off + 2 + len]);
    if !Utf8(s) then Err(BadUtf8) else Ok((s, off + 2 + len))
  }

  function GetU64(data: seq<Octet>, off: nat): Result<(u64, nat)> {
    if off + 8 > |data| then Err(BadPayload) else
    Ok((From64(Values(data[off..off + 8])), off + 8))
  }

  lemma GetPutStr(pre: seq<Octet>, s: Text, post: seq<Octet>)
    requires |s| <= 0xFFFF
    ensures GetStr(pre + PutStr(s) + post, |pre|) == Ok((s, |pre| + 2 + |s|))
  {
    var data := pre + PutStr(s) + post;
    assert data[|pre|..|pre| + 2] == Clears(Be16(|s|));
    assert data[|pre| + 2..|pre| + 2 + |s|] == Clears(s);
    ValuesOfClears(Be16(|s|));
    ValuesOfClears(s);
  }

  /** A string longer than its 16-bit length field is cut: what is read back is not what was put. */
  lemma LongStringLost(pre: seq<Octet>, s: Text, post: seq<Octet>)
    requires |s| > 0xFFFF
    ensures var r := GetStr(pre + PutStr(s) + post, |pre|); r.Ok? ==> r.value.0 != s
  {
    var data := pre + PutStr(s) + post;
    assert data[|pre|..|pre| + 2] == Clears(Be16(|s| % 0x1_0000));
    ValuesOfClears(Be16(|s| % 0x1_0000));
  }

  lemma GetPutU64(pre: seq<Octet>, v: u64, post: seq<Octet>)
    ensures GetU64(pre + PutU64(v) + post, |pre|) == Ok((v, |pre| + 8))
  {
    var data := pre + PutU64(v) + post;
    assert data[|pre|..|pre| + 8] == Clears(Be64(v));
    ValuesOfClears(Be64(v));
    Be64RoundTrip(v);
  }

  /** What `GetStr` read is what `PutStr` would have written there. */
  lemma PutGotStr(data: seq<Octet>, off: nat)
    requires AllClear(data) && GetStr(data, off).Ok?
    ensures var (s, next) := GetStr(data, off).value;
            off <= next <= |data| && data[off..next] == PutStr(s)
  {
    var (s, next) := GetStr(data, off).value;
    var l := data[off..off + 2];
    From16RoundTrip(Values(l));
    ClearsOfValues(l);
    ClearsOfValues(data[off + 2..next]);
    assert data[off..next] == l + data[off + 2..next];
  }

  lemma PutGotU64(data: seq<Octet>, off: nat)
    requires AllClear(data) && GetU64(data, off).Ok?
    ensures off + 8 <= |data| && GetU64(data, off).value.1 == off + 8
    ensures data[off..off + 8] == PutU64(GetU64(data, off).value.0)
  {
    From64RoundTrip(Values(data[off..off + 8]));
    ClearsOfValues(data[off..off + 8]);
  }

  /** A string is read exactly where its length and its UTF-8 bytes stand in full. */
  lemma StrReadExactly(data: seq<Octet>, off: nat, s: Text, next: nat)
    requires AllClear(data) && off <= |data|
    ensures GetStr(data, off) == Ok((s, next))
            <==> |s| <= 0xFFFF && off <= next <= |data| && data[off..next] == PutStr(s)
  {
    hide Utf8;
    if GetStr(data, off) == Ok((s, next)) {
      PutGotStr(data, off);
    }
    if |s| <= 0xFFFF && off <= next <= |data| && data[off..next] == PutStr(s) {
      Thirds(data, off, next);
      GetPutStr(data[..off], s, data[next..]);
    }
  }

  // ---------------------------------------------------------------- DISCOVER

  function EncodeDiscover(discoverId: u64, name: Text, token: Option<Text>): seq<Octet> {
    PutU64(discoverId) + PutStr(name) + PutToken(token)
  }

  function DecodeDiscover(payload: seq<Octet>): Result<(u64, Text, Option<Text>)> {
    var (id, off1) :- GetU64(payload, 0);
    var (name, off2) :- GetStr(payload, off1);
    if off2 < |payload| then
      var (token, off3) :- GetStr(payload, off2);
      Ok((id, name, Some(token)))
    else Ok((id, name, None))
  }

  function NonEmpty(token: Option<Text>): Option<Text> {
    if token.Some? && token.value == [] then None else token
  }

  predicate Fits(s: Text) {
    |s| <= 0xFFFF
  }

  /** What follows the name: a token that is there and not empty. */
  function PutToken(token: Option<Text>): seq<Octet> {
    if token.Some? && token.value != [] then PutStr(token.value) else []
  }

  lemma TokenReadBack(pre: seq<Octet>, token: Option<Text>)
    requires NonEmpty(token).Some?
    ensures |PutToken(token)| > 0
    ensures GetStr(pre + PutToken(token), |pre|).Ok? && GetStr(pre + PutToken(token), |pre|).value.0 == token.value
            <==> Fits(token.value)
  {
    hide Utf8, GetStr, Values, Clears;
    assert pre + PutToken(token) == pre + PutStr(token.value) + [];
    if Fits(token.value) {
      GetPutStr(pre, token.value, []);
    } else {
      LongStringLost(pre, token.value, []);
    }
  }

  /** A DISCOVER survives exactly when its strings fit their length fields; an empty token comes
      back as none. */
  lemma DiscoverRoundTrip(discoverId: u64, name: Text, token: Option<Text>)
    ensures DecodeDiscover(EncodeDiscover(discoverId, name, token)) == Ok((discoverId, name, NonEmpty(token)))
            <==> Fits(name) && (token.Some? ==> Fits(token.value))
  {
    hide Utf8, GetStr, GetU64, PutStr, PutU64, Values, Clears;
    var id, t := PutU64(discoverId), PutToken(token);
    var p := EncodeDiscover(discoverId, name, token);
    assert |id| == 8 && p == id + PutStr(name) + t by { PutU64Length(discoverId); }
    assert GetU64(p, 0) == Ok((discoverId, 8)) by {
      assert p == [] + id + (PutStr(name) + t);
      GetPutU64([], discoverId, PutStr(name) + t);
    }
    if !Fits(name) {
      LongStringLost(id, name, t);
    } else {
      GetPutStr(id, name, t);
      assert |id + PutStr(name)| == 10 + |name| by { PutStrLength(name); }
      if NonEmpty(token).Some? {
        TokenReadBack(id + PutStr(name), token);
      }
    }
  }

  lemma PutU64Length(v: u64)
    ensures |PutU64(v)| == 8
  {
  }

  lemma PutStrLength(s: Text)
    ensures |PutStr(s)| == 2 + |s|
  {
  }

  // ---------------------------------------------------------------- RESP

  datatype Resp = Resp(discoverId: u64, deviceName: Text, ports: seq<u16>)

  function PutPorts(ports: seq<u16>): (r: seq<Octet>)
    ensures |r| == 2 * |ports|
  {
    if ports == [] then [] else Clears(Be16(ports[0])) + PutPorts(ports[1..])
  }

  function GetPorts(data: seq<Octet>): (r: seq<u16>)
    ensures |r| == |data| / 2
  {
    if |data| < 2 then [] else [From16(Values(data[..2]))] + GetPorts(data[2..])
  }

  function EncodeResp(resp: Resp): seq<Octet> {
    PutU64(resp.discoverId) + PutStr(resp.deviceName) + PutPorts(resp.ports)
  }

  function DecodeResp(payload: seq<Octet>): Result<Resp> {
    var (id, off1) :- GetU64(payload, 0);
    var (name, off2) :- GetStr(payload, off1);
    if (|payload| - off2) % 2 != 0 then Err(BadPayload) else
    Ok(Resp(id, name, GetPorts(payload[off2..])))
  }

  lemma {:induction false} GetPortsSplit(data: seq<Octet>, k: nat)
    requires 2 * k + 2 <= |data|
    ensures GetPorts(data[..2 * k + 2])
            == GetPorts(data[..2 * k]) + [From16(Values(data[2 * k..2 * k + 2]))]
  {
    var d := data[..2 * k + 2];
    if k == 0 {
      assert d[2..] == [] && d[..2] == data[0..2];
    } else {
      GetPortsSplit(data[2..], k - 1);
      assert data[2..][..2 * (k - 1) + 2] == d[2..];
      assert data[2..][..2 * (k - 1)] == data[..2 * k][2..];
      assert data[2..][2 * (k - 1)..2 * (k - 1) + 2] == data[2 * k..2 * k + 2];
      assert d[..2] == data[..2 * k][..2];
    }
  }

  /** The decoder's port loop as the program runs it: two bytes at a time from an offset. */
  method ReadPorts(payload: seq<Octet>, start: nat) returns (ports: seq<u16>, off: nat)
    requires start <= |payload|
    ensures ports == GetPorts(payload[start..])
    ensures off == start + 2 * |ports|
  {
    ghost var tail := payload[start..];
    off, ports := start, [];
    while off + 2 <= |payload|
      invariant start <= off <= |payload|
      invariant off == start + 2 * |ports|
      invariant ports == GetPorts(tail[..2 * |ports|])
    {
      GetPortsSplit(tail, |ports|);
      assert tail[2 * |ports|..2 * |ports| + 2] == payload[off..off + 2];
      ports := ports + [From16(Values(payload[off..off + 2]))];
      off := off + 2;
    }
    GetPortsFloor(tail, |ports|);
  }

  lemma {:induction false} GetPortsFloor(data: seq<Octet>, k: nat)
    requires 2 * k <= |data| <= 2 * k + 1
    ensures GetPorts(data[..2 * k]) == GetPorts(data)
  {
    if k > 0 {
      GetPortsFloor(data[2..], k - 1);
      assert data[2..][..2 * (k - 1)] == data[..2 * k][2..];
      assert data[..2 * k][..2] == data[..2];
    }
  }

  method DecodeRespPayload(payload: seq<Octet>) returns (r: Result<Resp>)
    ensures r == DecodeResp(payload)
  {
    var id := GetU64(payload, 0);
    if id.Err? {
      return Err(id.error);
    }
    var name := GetStr(payload, id.value.1);
    if name.Err? {
      return Err(name.error);
    }
    var ports, off := ReadPorts(payload, name.value.1);
    if off != |payload| {
      return Err(BadPayload);
    }
    return Ok(Resp(id.value.0, name.value.0, ports));
  }

  lemma {:induction false} GetPutPorts(ports: seq<u16>)
    ensures GetPorts(PutPorts(ports)) == ports
  {
    if ports != [] {
      var p := PutPorts(ports);
      assert p[..2] == Clears(Be16(ports[0])) && p[2..] == PutPorts(ports[1..]);
      ValuesOfClears(Be16(ports[0]));
      GetPutPorts(ports[1..]);
    }
  }

  lemma {:induction false} PutGotPorts(data: seq<Octet>)
    requires AllClear(data) && |data| % 2 == 0
    ensures PutPorts(GetPorts(data)) == data
  {
    if |data| >= 2 {
      From16RoundTrip(Values(data[..2]));
      ClearsOfValues(data[..2]);
      PutGotPorts(data[2..]);
      assert GetPorts(data)[1..] == GetPorts(data[2..]);
      assert data == data[..2] + data[2..];
    } else {
      assert data == [];
    }
  }

  /** The encoder as the program runs it: one port after the other. */
  method EncodeRespPayload(discoverId: u64, deviceName: Text, ports: seq<u16>) returns (p: seq<Octet>)
    ensures p == EncodeResp(Resp(discoverId, deviceName, ports))
  {
    var head := PutU64(discoverId) + PutStr(deviceName);
    p := head;
    for k := 0 to |ports|
      invariant p == head + PutPorts(ports[..k])
    {
      PutOnePort(ports[..k], ports[k]);
      assert ports[..k + 1] == ports[..k] + [ports[k]];
      p := p + Clears(Be16(ports[k]));
    }
    assert ports[..|ports|] == ports;
  }

  lemma {:induction false} PutOnePort(ports: seq<u16>, port: u16)
    ensures PutPorts(ports + [port]) == PutPorts(ports) + Clears(Be16(port))
  {
    if ports == [] {
      assert [port][1..] == [];
    } else {
      PutOnePort(ports[1..], port);
      assert (ports + [port])[1..] == ports[1..] + [port];
    }
  }

  lemma RespRoundTrip(resp: Resp)
    ensures DecodeResp(EncodeResp(resp)) == Ok(resp) <==> Fits(resp.deviceName)
  {
    hide Utf8, GetU64, GetStr, GetPorts, PutPorts, PutStr, PutU64, Values, Clears;
    var p := EncodeResp(resp);
    var id, name, ports := PutU64(resp.discoverId), PutStr(resp.deviceName), PutPorts(resp.ports);
    var off := 8 + 2 + |resp.deviceName|;
    PutU64Length(resp.discoverId);
    PutStrLength(resp.deviceName);
    assert GetU64(p, 0) == Ok((resp.discoverId, 8)) by {
      assert p == [] + id + (name + ports);
      GetPutU64([], resp.discoverId, name + ports);
    }
    if Fits(resp.deviceName) {
      assert GetStr(p, 8) == Ok((resp.deviceName, off)) by {
        GetPutStr(id, resp.deviceName, ports);
      }
      assert p[off..] == ports;
      GetPutPorts(resp.ports);
    } else {
      LongStringLost(id, resp.deviceName, ports);
    }
  }

  /** The RESP decoder accepts encoder outputs only. */
  lemma RespExact(payload: seq<Octet>)
    requires AllClear(payload) && DecodeResp(payload).Ok?
    ensures payload == EncodeResp(DecodeResp(payload).value)
  {
    hide GetU64, GetStr, GetPorts, PutPorts, PutStr, PutU64, Utf8, Values, Clears;
    PutGotU64(payload, 0);
    PutGotStr(payload, 8);
    var off := GetStr(payload, 8).value.1;
    assert DecodeResp(payload).value
        == Resp(GetU64(payload, 0).value.0, GetStr(payload, 8).value.0, GetPorts(payload[off..]));
    PutGotPorts(payload[off..]);
    Thirds(payload, 8, off);
  }

  // ---------------------------------------------------------------- AUTH_REQ, AUTH_ACK, AUTH_NACK

  datatype AuthReq = AuthReq(user: Text, nonce: u64, proof: seq<Octet>)

  function EncodeAuthReq(user: Text, nonce: u64, proof: seq<Octet>): seq<Octet> {
    PutStr(user) + PutU64(nonce) + proof
  }

  function DecodeAuthReq(payload: seq<Octet>): Result<AuthReq> {
    var (user, off1) :- GetStr(payload, 0);
    var (nonce, off2) :- GetU64(payload, off1);
    if off2 + 32 > |payload| then Err(BadPayload) else
    Ok(AuthReq(user, nonce, payload[off2..off2 + 32]))
  }

  lemma AuthReqRoundTrip(user: Text, nonce: u64, proof: seq<Octet>)
    requires |proof| == 32
    ensures DecodeAuthReq(EncodeAuthReq(user, nonce, proof)) == Ok(AuthReq(user, nonce, proof)) <==> Fits(user)
  {
    hide Utf8;
    var p := EncodeAuthReq(user, nonce, proof);
    assert p == [] + PutStr(user) + (PutU64(nonce) + proof);
    if Fits(user) {
      GetPutStr([], user, PutU64(nonce) + proof);
      GetPutU64(PutStr(user), nonce, proof);
      var off := 2 + |user| + 8;
      assert p[off..off + 32] == proof;
    } else {
      LongStringLost([], user, PutU64(nonce) + proof);
    }
  }

  lemma AuthReqLength(user: Text, nonce: u64, proof: seq<Octet>)
    ensures |EncodeAuthReq(user, nonce, proof)| == 10 + |user| + |proof|
  {
  }

  function EncodeAuthAck(proof: seq<Octet>): seq<Octet> {
    proof
  }

  function DecodeAuthAck(payload: seq<Octet>): Result<seq<Octet>> {
    if |payload| != 32 then Err(BadPayload) else Ok(payload)
  }

  /** The AUTH_ACK decoder accepts encoder outputs only, and all of them. */
  lemma AuthAckExact(payload: seq<Octet>, proof: seq<Octet>)
    requires |proof| == 32
    ensures DecodeAuthAck(payload) == Ok(proof) <==> payload == EncodeAuthAck(proof)
  {
  }

  function EncodeAuthNack(reason: Text): seq<Octet> {
    PutStr(reason)
  }

  function DecodeAuthNack(payload: seq<Octet>): Result<Text> {
    var (reason, off) :- GetStr(payload, 0);
    Ok(reason)
  }

  /** A NACK reason survives exactly when it fits the 16-bit string length. */
  lemma AuthNackRoundTrip(reason: Text, padding: seq<Octet>)
    ensures DecodeAuthNack(EncodeAuthNack(reason) + padding) == Ok(reason) <==> Fits(reason)
  {
    assert EncodeAuthNack(reason) + padding == [] + PutStr(reason) + padding;
    if Fits(reason) {
      GetPutStr([], reason, padding);
    } else {
      LongStringLost([], reason, padding);
    }
  }
}
