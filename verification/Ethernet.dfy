/** Ethernet framing with any depth of IEEE 802.1Q tags, and a Terrain frame carried through it. */
module Ethernet {
  import opened Octets
  import opened Frame

  const ETHERTYPE: u16 := 0x88B6

  datatype EthernetFrame = EthernetFrame(
    dst: seq<Octet>, src: seq<Octet>, vlanId: Option<u16>, ethertype: u16, payload: seq<Octet>)

  predicate IsTagType(ethertype: u16) {
    ethertype == 0x8100 || ethertype == 0x88a8 || ethertype == 0x9100
  }

  /** One VLAN tag: its type, the priority bits and the 12-bit id. */
  datatype Tag = Tag(kind: u16, priority: u16, id: u16) {
    predicate Valid() {
      (kind == 0x8100 || kind == 0x88A8 || kind == 0x9100) && priority < 16 && id < 0x1000
    }

    function Control(): u16
      requires Valid()
    {
      (priority as int) * 0x1000 + id
    }
  }

  function Word(raw: seq<Octet>, off: nat): u16
    requires off + 2 <= |raw|
  {
    From16(Values(raw[off..off + 2]))
  }

  /** Skip tags from `offset` on: the innermost id, the inner ethertype and where the payload
      starts; nothing if a tag is cut short. */
  function SkipTags(raw: seq<Octet>, offset: nat, ethertype: u16, vlanId: Option<u16>)
    : (r: Option<(Option<u16>, u16, nat)>)
    requires offset <= |raw|
    ensures r.Some? ==> offset <= r.value.2 <= |raw|
    decreases |raw| - offset
  {
    if !IsTagType(ethertype) then Some((vlanId, ethertype, offset))
    else if |raw| < offset + 4 then None
    else SkipTags(raw, offset + 4, Word(raw, offset + 2), Some(Word(raw, offset) % 0x1000))
  }

  /** The parser as the program runs it. */
  method Parse(raw: seq<Octet>) returns (r: Option<EthernetFrame>)
    ensures r == ParseSpec(raw)
  {
    if |raw| < 14 {
      return None;
    }
    var dst, src := raw[0..6], raw[6..12];
    var ethertype := Word(raw, 12);
    var offset := 14;
    var vlanId: Option<u16> := None;
    while IsTagType(ethertype)
      invariant 14 <= offset <= |raw|
      invariant SkipTags(raw, offset, ethertype, vlanId) == SkipTags(raw, 14, Word(raw, 12), None)
      decreases |raw| - offset
    {
      if |raw| < offset + 4 {
        return None;
      }
      vlanId := Some(Word(raw, offset) % 0x1000);
      ethertype := Word(raw, offset + 2);
      offset := offset + 4;
    }
    return Some(EthernetFrame(dst, src, vlanId, ethertype, raw[offset..]));
  }

  function ParseSpec(raw: seq<Octet>): Option<EthernetFrame> {
    if |raw| < 14 then None else
    var inner := SkipTags(raw, 14, Word(raw, 12), None);
    if inner.None? then None else
    Some(EthernetFrame(raw[0..6], raw[6..12], inner.value.0, inner.value.1, raw[inner.value.2..]))
  }

  /** The type field in front of each tag, the tag control word, and at last the inner type. */
  function PutTags(tags: seq<Tag>, ethertype: u16): (r: seq<Octet>)
    requires forall k :: 0 <= k < |tags| ==> tags[k].Valid()
    ensures |r| == 2 + 4 * |tags|
  {
    if tags == [] then Clears(Be16(ethertype)) else
    Clears(Be16(tags[0].kind)) + Clears(Be16(tags[0].Control())) + PutTags(tags[1..], ethertype)
  }

  function InnermostId(tags: seq<Tag>, outer: Option<u16>): Option<u16>
    requires forall k :: 0 <= k < |tags| ==> tags[k].Valid()
  {
    if tags == [] then outer else Some(tags[|tags| - 1].id)
  }

  lemma WordAt(pre: seq<Octet>, v: u16, post: seq<Octet>)
    ensures Word(pre + Clears(Be16(v)) + post, |pre|) == v
  {
    assert (pre + Clears(Be16(v)) + post)[|pre|..|pre| + 2] == Clears(Be16(v));
    ValuesOfClears(Be16(v));
  }

  lemma SkipOneTag(pre: seq<Octet>, t: Tag, rest: seq<Octet>, outer: Option<u16>)
    requires t.Valid() && |rest| >= 2
    ensures var raw := pre + (Clears(Be16(t.kind)) + Clears(Be16(t.Control())) + rest);
            SkipTags(raw, |pre| + 2, Word(raw, |pre|), outer)
            == SkipTags(raw, |pre| + 6, Word(raw, |pre| + 4), Some(t.id))
  {
    hide Word, Clears, Be16;
    var kind, tci := Clears(Be16(t.kind)), Clears(Be16(t.Control()));
    Associative(kind, tci, rest);
    Associative(pre, kind, tci + rest);
    WordAt(pre, t.kind, tci + rest);
    Associative(pre + kind, tci, rest);
    WordAt(pre + kind, t.Control(), rest);
    assert t.Control() % 0x1000 == t.id;
  }

  lemma {:induction false} SkipTagsOfPut(pre: seq<Octet>, tags: seq<Tag>, ethertype: u16, payload: seq<Octet>,
                                         outer: Option<u16>)
    requires forall k :: 0 <= k < |tags| ==> tags[k].Valid()
    requires !IsTagType(ethertype)
    decreases |tags|
    ensures var raw := pre + (PutTags(tags, ethertype) + payload);
            SkipTags(raw, |pre| + 2, Word(raw, |pre|), outer)
            == Some((InnermostId(tags, outer), ethertype, |pre| + 2 + 4 * |tags|))
  {
    hide Word;
    var raw := pre + (PutTags(tags, ethertype) + payload);
    if tags == [] {
      assert raw == pre + Clears(Be16(ethertype)) + payload;
      WordAt(pre, ethertype, payload);
    } else {
      var head := Clears(Be16(tags[0].kind)) + Clears(Be16(tags[0].Control()));
      var rest := PutTags(tags[1..], ethertype) + payload;
      assert raw == pre + (head + rest) && raw == (pre + head) + rest;
      SkipOneTag(pre, tags[0], rest, outer);
      SkipTagsOfPut(pre + head, tags[1..], ethertype, payload, Some(tags[0].id));
      assert InnermostId(tags, outer) == InnermostId(tags[1..], Some(tags[0].id));
    }
  }

  /** For any depth of tags and any payload the parser ends at the innermost tag's id and the
      inner ethertype, with exactly the payload left. */
  lemma ParseThroughTags(dst: seq<Octet>, src: seq<Octet>, tags: seq<Tag>, ethertype: u16, payload: seq<Octet>)
    requires |dst| == 6 && |src| == 6 && !(ethertype == 0x8100 || ethertype == 0x88A8 || ethertype == 0x9100)
    requires forall k :: 0 <= k < |tags| ==> tags[k].Valid()
    ensures ParseSpec(dst + src + PutTags(tags, ethertype) + payload)
            == Some(EthernetFrame(dst, src, InnermostId(tags, None), ethertype, payload))
  {
    hide PutTags, SkipTags, Word, InnermostId;
    var t := PutTags(tags, ethertype);
    Associative(dst + src, t, payload);
    SkipTagsOfPut(dst + src, tags, ethertype, payload, None);
    PartsOfFrame(dst, src, t, payload);
  }

  lemma PartsOfFrame(dst: seq<Octet>, src: seq<Octet>, tags: seq<Octet>, payload: seq<Octet>)
    requires |dst| == 6 && |src| == 6
    ensures var raw := dst + src + tags + payload;
            raw[0..6] == dst && raw[6..12] == src && raw[12 + |tags|..] == payload
  {
  }

  /** A Terrain frame that fits its length field survives tags and minimum-frame padding. */
  lemma TerrainThroughLink(dst: seq<Octet>, src: seq<Octet>, tags: seq<Tag>, padding: seq<Octet>,
                           msgType: byte, sessionId: u32, seqNo: u32, payload: seq<Octet>)
    requires |dst| == 6 && |src| == 6 && |payload| <= 0xFFFF
    requires forall k :: 0 <= k < |tags| ==> tags[k].Valid()
    ensures var body := Encode(msgType, sessionId, seqNo, payload) + padding;
            var r := ParseSpec(dst + src + PutTags(tags, ETHERTYPE) + body);
            && r.Some? && r.value.ethertype == ETHERTYPE && r.value.src == src
            && Decode(r.value.payload) == Ok(Frame(VERSION, msgType, sessionId, seqNo, |payload|, payload))
  {
    hide Decode, Encode;
    ParseThroughTags(dst, src, tags, ETHERTYPE, Encode(msgType, sessionId, seqNo, payload) + padding);
    FrameRoundTrip(msgType, sessionId, seqNo, payload, padding);
  }
}
