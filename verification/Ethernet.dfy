/**
 Ethernet II and IEEE 802.1Q framing shared by GOOSE and Sampled Values: `ethernet.py`
 as functions, the native `ethernet.rs` as methods proved against them.
 */
module Ethernet {
  import opened Octets
  import opened Ber

  const ETHERTYPE_VLAN: nat := 0x8100
  const ETHERTYPE_GOOSE: nat := 0x88B8
  const ETHERTYPE_SV: nat := 0x88BA
  const HEADER_LEN: nat := 8

  datatype Vlan = Vlan(id: nat, priority: nat)
  datatype Address = Address(dst: Bytes, src: Bytes, appId: nat, vlan: Option<Vlan>)
  datatype Frame = Frame(dst: Bytes, src: Bytes, vlan: Option<Vlan>, ethertype: nat,
                         appId: nat, reserved1: nat, reserved2: nat, apdu: Bytes)
  datatype FrameError = ApduTooLong(octets: nat) | VlanId(id: nat) | VlanPriority(priority: nat)

  // What the types of an address allow; the frame checks do the rest.
  predicate TypedAddress(a: Address) {
    && |a.dst| == 6 && |a.src| == 6 && a.appId < 0x1_0000
    && (a.vlan.Some? ==> a.vlan.value.id < 0x1_0000 && a.vlan.value.priority < 256)
  }

  function U16(s: Bytes, at: nat): nat
    requires at + 2 <= |s|
  {
    256 * (s[at] as int) + s[at + 1]
  }

  function Check(a: Address, apduLen: nat): Option<FrameError> {
    if HEADER_LEN + apduLen > 0xFFFF then Some(ApduTooLong(apduLen))
    else if a.vlan.Some? && a.vlan.value.id > 0x0FFF then Some(VlanId(a.vlan.value.id))
    else if a.vlan.Some? && a.vlan.value.priority > 7 then Some(VlanPriority(a.vlan.value.priority))
    else None
  }

  // The 802.1Q tag, if any; the values are written as they are.
  function TagOctets(a: Address): Bytes {
    match a.vlan
    case None => []
    case Some(v) => ToBE(ETHERTYPE_VLAN, 2) + ToBE(v.priority * 0x2000 + v.id, 2)
  }

  // The EtherType and the APPID header.
  function AppHeader(ethertype: nat, appId: nat, apduLen: nat): (s: Bytes)
    ensures |s| == 2 + HEADER_LEN
  {
    ToBE(ethertype, 2) + ToBE(appId, 2) + ToBE(HEADER_LEN + apduLen, 2) + [0, 0, 0, 0]
  }

  // Everything before the APDU.
  function HeaderOctets(a: Address, ethertype: nat, apduLen: nat): Bytes {
    a.dst + a.src + TagOctets(a) + AppHeader(ethertype, a.appId, apduLen)
  }

  function BuildFrame(a: Address, ethertype: nat, apdu: Bytes): Result<Bytes, FrameError> {
    match Check(a, |apdu|)
    case Some(e) => Err(e)
    case None => Ok(HeaderOctets(a, ethertype, |apdu|) + apdu)
  }

  // None for another ethertype, a truncated frame or an inconsistent Length; octets after
  // Length are padding.
  function ParseFrame(raw: Bytes, ethertypes: set<nat>): Option<Frame> {
    if |raw| < 14 then None
    else if U16(raw, 12) == ETHERTYPE_VLAN then
      if |raw| < 18 then None
      else
        var tci := U16(raw, 14);
        ParseFrom(raw, 18, Some(Vlan(tci % 0x1000, tci / 0x2000)), U16(raw, 16), ethertypes)
    else ParseFrom(raw, 14, None, U16(raw, 12), ethertypes)
  }

  function ParseFrom(raw: Bytes, offset: nat, vlan: Option<Vlan>, ethertype: nat, ethertypes: set<nat>): Option<Frame>
    requires 14 <= offset <= |raw|
  {
    if ethertype !in ethertypes || |raw| < offset + HEADER_LEN then None
    else
      var length := U16(raw, offset + 2);
      if length < HEADER_LEN || offset + length > |raw| then None
      else Some(Frame(raw[..6], raw[6..12], vlan, ethertype, U16(raw, offset),
                      U16(raw, offset + 4), U16(raw, offset + 6), raw[offset + HEADER_LEN..offset + length]))
  }

  // Two octets of a number, read where they stand.
  lemma TwoOctets(v: nat, before: Bytes, after: Bytes)
    requires v < 0x1_0000
    ensures U16(before + ToBE(v, 2) + after, |before|) == v
  {
    assert ToBE(v, 2) == ToBE(v / 256, 1) + [v % 256];
    assert ToBE(v / 256, 1) == ToBE(v / 256 / 256, 0) + [v / 256 % 256];
  }

  lemma AppHeaderRoundTrip(before: Bytes, vlan: Option<Vlan>, ethertype: nat, appId: nat, apdu: Bytes,
                           padding: Bytes, ethertypes: set<nat>)
    requires |before| >= 12 && ethertype < 0x1_0000 && ethertype in ethertypes && appId < 0x1_0000
    requires HEADER_LEN + |apdu| <= 0xFFFF
    ensures var raw := before + AppHeader(ethertype, appId, |apdu|) + apdu + padding;
            && U16(raw, |before|) == ethertype
            && ParseFrom(raw, |before| + 2, vlan, ethertype, ethertypes)
            == Some(Frame(before[..6], before[6..12], vlan, ethertype, appId, 0, 0, apdu))
  {
    hide U16, ToBE;
    var raw := before + AppHeader(ethertype, appId, |apdu|) + apdu + padding;
    var e, i, l := ToBE(ethertype, 2), ToBE(appId, 2), ToBE(HEADER_LEN + |apdu|, 2);
    var zero: Bytes := [0, 0, 0, 0];
    var end := zero + apdu + padding;
    assert raw == before + e + (i + l + end);
    TwoOctets(ethertype, before, i + l + end);
    assert raw == (before + e) + i + (l + end);
    TwoOctets(appId, before + e, l + end);
    assert raw == (before + e + i) + l + end;
    TwoOctets(HEADER_LEN + |apdu|, before + e + i, end);
    Reserved(before + e + i + l, apdu + padding);
    assert raw == (before + e + i + l) + zero + (apdu + padding);
    assert raw == (before + e + i + l + zero) + apdu + padding;
    assert raw[..6] == before[..6] && raw[6..12] == before[6..12];
  }

  // The two reserved fields, read where they stand.
  lemma Reserved(before: Bytes, after: Bytes)
    ensures var raw := before + [0, 0, 0, 0] + after; U16(raw, |before|) == 0 && U16(raw, |before| + 2) == 0
  {
  }

  // A frame that is built is parsed back whole, whatever padding follows it, as long as an
  // untagged frame's ethertype is not that of a tag.
  lemma FrameRoundTrip(a: Address, ethertype: nat, apdu: Bytes, padding: Bytes, ethertypes: set<nat>)
    requires TypedAddress(a) && ethertype < 0x1_0000 && ethertype in ethertypes
    requires Check(a, |apdu|) == None
    requires a.vlan == None ==> ethertype != ETHERTYPE_VLAN
    ensures ParseFrame(BuildFrame(a, ethertype, apdu).value + padding, ethertypes)
         == Some(Frame(a.dst, a.src, a.vlan, ethertype, a.appId, 0, 0, apdu))
  {
    hide AppHeader, ParseFrom, ToBE, U16;
    var macs := a.dst + a.src;
    var before := macs + TagOctets(a);
    var rest := AppHeader(ethertype, a.appId, |apdu|) + apdu + padding;
    var raw := BuildFrame(a, ethertype, apdu).value + padding;
    assert raw == before + AppHeader(ethertype, a.appId, |apdu|) + apdu + padding;
    AppHeaderRoundTrip(before, a.vlan, ethertype, a.appId, apdu, padding, ethertypes);
    assert before[..6] == a.dst && before[6..12] == a.src;
    assert raw == macs + TagOctets(a) + rest;
    if a.vlan.Some? {
      TagRoundTrip(a, macs, rest);
    }
  }

  // The tag, read back.
  lemma TagRoundTrip(a: Address, macs: Bytes, rest: Bytes)
    requires |macs| == 12 && a.vlan.Some? && a.vlan.value.id <= 0x0FFF && a.vlan.value.priority <= 7
    ensures var raw := macs + TagOctets(a) + rest;
            |raw| >= 16 && U16(raw, 12) == ETHERTYPE_VLAN
            && U16(raw, 14) == a.vlan.value.priority * 0x2000 + a.vlan.value.id
  {
    hide ToBE, U16;
    var v := a.vlan.value;
    var tci := v.priority * 0x2000 + v.id;
    var raw := macs + TagOctets(a) + rest;
    assert raw == macs + ToBE(ETHERTYPE_VLAN, 2) + (ToBE(tci, 2) + rest);
    TwoOctets(ETHERTYPE_VLAN, macs, ToBE(tci, 2) + rest);
    assert raw == (macs + ToBE(ETHERTYPE_VLAN, 2)) + ToBE(tci, 2) + rest;
    TwoOctets(tci, macs + ToBE(ETHERTYPE_VLAN, 2), rest);
  }

  // --- the native module -----------------------------------------------------------------

  method NativeU16(data: Bytes, at: nat) returns (r: Option<nat>)
    ensures r == if at + 2 <= |data| then Some(U16(data, at)) else None
  {
    return if at + 2 <= |data| then Some(256 * (data[at] as int) + data[at + 1]) else None;
  }

  // The bytes after the EtherType: APPID, reserved fields and APDU.
  method NativeParseHeader(payload: Bytes) returns (r: Option<(nat, nat, nat, Bytes)>)
    ensures r == if |payload| < HEADER_LEN || !(HEADER_LEN <= U16(payload, 2) <= |payload|) then None
                 else Some((U16(payload, 0), U16(payload, 4), U16(payload, 6), payload[HEADER_LEN..U16(payload, 2)]))
  {
    var length := NativeU16(payload, 2);
    if length.None? {
      return None;
    }
    if |payload| < HEADER_LEN || length.value < HEADER_LEN || length.value > |payload| {
      return None;
    }
    return Some((U16(payload, 0), U16(payload, 4), U16(payload, 6), payload[HEADER_LEN..length.value]));
  }

  method NativeParseFrame(raw: Bytes, ethertypes: set<nat>) returns (r: Option<Frame>)
    ensures r == ParseFrame(raw, ethertypes)
  {
    var offset := 12;
    var first := NativeU16(raw, offset);
    if first.None? {
      return None;
    }
    var ethertype := first.value;
    offset := offset + 2;
    var vlan: Option<Vlan> := None;
    if ethertype == ETHERTYPE_VLAN {
      var tci := NativeU16(raw, offset);
      var second := NativeU16(raw, offset + 2);
      if tci.None? || second.None? {
        return None;
      }
      vlan := Some(Vlan(tci.value % 0x1000, tci.value / 0x2000));
      ethertype := second.value;
      offset := offset + 4;
    }
    if ethertype !in ethertypes {
      return None;
    }
    var payload := raw[offset..];
    var header := NativeParseHeader(payload);
    if header.None? {
      return None;
    }
    var (appId, reserved1, reserved2, apdu) := header.value;
    assert apdu == raw[offset + HEADER_LEN..offset + U16(raw, offset + 2)];
    return Some(Frame(raw[0..6], raw[6..12], vlan, ethertype, appId, reserved1, reserved2, apdu));
  }

  function HeaderLen(a: Address): nat {
    12 + (if a.vlan.Some? then 4 else 0) + 2 + HEADER_LEN
  }

  lemma HeaderLenIsExact(a: Address, ethertype: nat, apduLen: nat)
    requires TypedAddress(a)
    ensures |HeaderOctets(a, ethertype, apduLen)| == HeaderLen(a)
  {
  }

  // The octets before the APDU, written one field after the other.
  method WriteHeader(a: Address, ethertype: nat, apduLen: nat, w: Writer) returns (ok: bool)
    requires w.Valid() && TypedAddress(a)
    modifies w, w.buf
    ensures w.Valid()
    ensures |HeaderOctets(a, ethertype, apduLen)| == HeaderLen(a)
    ensures old(w.pos) + HeaderLen(a) <= w.buf.Length ==>
              ok && Extends(old(w.buf[..]), old(w.pos), w.buf[..], w.pos, HeaderOctets(a, ethertype, apduLen))
  {
    JoinedFew(a.dst, a.src, [], []);
    ok := PutAll([a.dst, a.src], w);
    if !ok {
      return;
    }
    ghost var b1, p1 := w.buf[..], w.pos;
    if a.vlan.Some? {
      var v := a.vlan.value;
      JoinedFew(ToBE(ETHERTYPE_VLAN, 2), ToBE(v.priority * 0x2000 + v.id, 2), [], []);
      ok := PutAll([ToBE(ETHERTYPE_VLAN, 2), ToBE(v.priority * 0x2000 + v.id, 2)], w);
      if !ok {
        return;
      }
    }
    ghost var b2, p2 := w.buf[..], w.pos;
    JoinedFew(ToBE(ethertype, 2), ToBE(a.appId, 2), ToBE(HEADER_LEN + apduLen, 2), [0, 0, 0, 0]);
    ok := PutAll([ToBE(ethertype, 2), ToBE(a.appId, 2), ToBE(HEADER_LEN + apduLen, 2), [0, 0, 0, 0]], w);
    if ok {
      ExtendsTwice(old(w.buf[..]), old(w.pos), b1, p1, b2, p2, a.dst + a.src, TagOctets(a));
      ExtendsTwice(old(w.buf[..]), old(w.pos), b2, p2, w.buf[..], w.pos, a.dst + a.src + TagOctets(a),
                   AppHeader(ethertype, a.appId, apduLen));
    }
  }

  function Joined(parts: seq<Bytes>): Bytes {
    if parts == [] then [] else parts[0] + Joined(parts[1..])
  }

  lemma JoinedFew(a: Bytes, b: Bytes, c: Bytes, d: Bytes)
    ensures Joined([a, b]) == a + b
    ensures Joined([a, b, c, d]) == a + b + c + d
  {
    assert [a, b][1..] == [b] && [b][1..] == [];
    assert [a, b, c, d][1..] == [b, c, d] && [b, c, d][1..] == [c, d] && [c, d][1..] == [d] && [d][1..] == [];
    assert Joined([b]) == b && Joined([d]) == d;
    assert Joined([c, d]) == c + d;
    assert Joined([b, c, d]) == b + c + d;
  }

  // Consecutive `put`s, the first that does not fit ending them.
  method PutAll(parts: seq<Bytes>, w: Writer) returns (ok: bool)
    requires w.Valid()
    modifies w, w.buf
    ensures w.Valid()
    ensures ok == (old(w.pos) + |Joined(parts)| <= w.buf.Length)
    ensures ok ==> Extends(old(w.buf[..]), old(w.pos), w.buf[..], w.pos, Joined(parts))
    decreases parts
  {
    if parts == [] {
      return true;
    }
    ok := w.Put(parts[0]);
    if ok {
      ghost var b1, p1 := w.buf[..], w.pos;
      ok := PutAll(parts[1..], w);
      if ok {
        ExtendsTwice(old(w.buf[..]), old(w.pos), b1, p1, w.buf[..], w.pos, parts[0], Joined(parts[1..]));
      }
    }
  }
}
