/**
 Frame templates of `sv_publisher.py` and of the native engine: a frame is encoded once,
 its variable fields are located, and from then on they are patched in place. Patching
 any frame of the stream gives, octet for octet, the frame encoding would give.
 */
module SvTemplate {
  import opened Octets
  import opened Ber
  import opened TlvLists
  import opened Ethernet
  import opened Sv

  // A stream as it is encoded: identity, address and the number of INT32 channels.
  datatype Stream = Stream(svId: Bytes, datSet: Option<Bytes>, confRev: nat, smpSynch: nat,
                           address: Address, channels: nat, simulation: bool)

  predicate TypedStream(s: Stream) {
    s.confRev < TWO_32 && s.smpSynch < 256 && TypedAddress(s.address)
  }

  // smpCnt and the sample octets of one ASDU.
  datatype Slot = Slot(smpCnt: nat, sample: Bytes)

  function AsduWith(s: Stream, slot: Slot): Asdu {
    Asdu(s.svId, s.datSet, slot.smpCnt, s.confRev, None, s.smpSynch, None, slot.sample, None, None)
  }

  function AsdusWith(s: Stream, slots: seq<Slot>): seq<Asdu> {
    seq(|slots|, i requires 0 <= i < |slots| => AsduWith(s, slots[i]))
  }

  function Apdu(s: Stream, slots: seq<Slot>): Bytes {
    EncodeSvPdu(SvPdu(AsdusWith(s, slots), None))
  }

  // Sets bits of Reserved1 in an encoded frame: 0x8000 marks a simulated stream.
  function SetSimulated(frame: Bytes): Bytes
    requires |frame| >= 24
  {
    var at := if frame[12..14] == [0x81, 0x00] then 18 else 14;
    var reserved1 := U16(frame, at + 4);
    frame[..at + 4] + ToBE(if reserved1 < 0x8000 then reserved1 + 0x8000 else reserved1, 2) + frame[at + 6..]
  }

  // `encode_sv_frame`, then the simulation bit.
  function EncodeSvFrame(s: Stream, slots: seq<Slot>): Result<Bytes, FrameError>
    requires TypedStream(s)
  {
    var apdu := Apdu(s, slots);
    match BuildFrame(s.address, ETHERTYPE_SV, apdu)
    case Err(e) => Err(e)
    case Ok(frame) =>
      HeaderLenIsExact(s.address, ETHERTYPE_SV, |apdu|);
      Ok(if s.simulation then SetSimulated(frame) else frame)
  }

  // --- where the variable fields lie -----------------------------------------------------

  function FieldsBefore(s: Stream): seq<Field> {
    [(0x80, s.svId)] + Optional(0x81, s.datSet)
  }

  function FieldsBetween(s: Stream): seq<Field> {
    [(0x83, ToBE(s.confRev, 4)), (0x85, ToBE(s.smpSynch, 1))]
  }

  // Octets between smpCnt and the samples.
  function Mid(s: Stream): Bytes {
    EncodeFields(FieldsBetween(s)) + (EncodeTag(0x87) + EncodeLength(8 * s.channels))
  }

  function AsduContentLen(s: Stream): nat {
    |EncodeFields(FieldsBefore(s))| + 4 + |Mid(s)| + 8 * s.channels
  }

  // Octets of an ASDU before smpCnt.
  function Head(s: Stream): Bytes {
    EncodeTag(TAG_ASDU) + EncodeLength(AsduContentLen(s)) + EncodeFields(FieldsBefore(s)) + [0x82, 0x02]
  }

  function AsduLen(s: Stream): nat {
    |Head(s)| + 2 + |Mid(s)| + 8 * s.channels
  }

  function Times(a: nat, b: nat): nat {
    a * b
  }

  function BodyLen(s: Stream, n: nat): nat {
    Times(n, AsduLen(s))
  }

  lemma BodyLenGrows(s: Stream, n: nat)
    ensures BodyLen(s, n + 1) == BodyLen(s, n) + AsduLen(s)
  {
  }

  function Block(s: Stream, slot: Slot): Bytes {
    Head(s) + ToBE(slot.smpCnt, 2) + Mid(s) + slot.sample
  }

  function Blocks(s: Stream, slots: seq<Slot>): Bytes {
    if slots == [] then [] else Block(s, slots[0]) + Blocks(s, slots[1..])
  }

  // The slots a stream's frame can hold.
  predicate Fits(s: Stream, slots: seq<Slot>) {
    forall i :: 0 <= i < |slots| ==> |slots[i].sample| == 8 * s.channels
  }

  // Everything before the first ASDU; it depends on the number of ASDUs only.
  function SeqHeader(n: nat, size: nat): Bytes {
    EncodeTlv(TAG_NO_ASDU, EncodeInteger(n)) + (EncodeTag(TAG_SEQ_ASDU) + EncodeLength(size))
  }

  function ApduHeader(n: nat, size: nat): Bytes {
    EncodeTag(TAG_SAV_PDU) + EncodeLength(|SeqHeader(n, size)| + size) + SeqHeader(n, size)
  }

  function EthHeader(s: Stream, apduLen: nat): Bytes {
    s.address.dst + s.address.src + TagOctets(s.address)
    + (ToBE(ETHERTYPE_SV, 2) + ToBE(s.address.appId, 2) + ToBE(HEADER_LEN + apduLen, 2)
       + [if s.simulation then 0x80 else 0x00, 0, 0, 0])
  }

  function Prefix(s: Stream, n: nat): Bytes {
    var header := ApduHeader(n, BodyLen(s, n));
    EthHeader(s, |header| + BodyLen(s, n)) + header
  }

  lemma AsduIsBlock(s: Stream, slot: Slot)
    requires |slot.sample| == 8 * s.channels
    ensures EncodeFields(AsduFields(AsduWith(s, slot)))
         == EncodeFields(FieldsBefore(s)) + ([0x82, 0x02] + ToBE(slot.smpCnt, 2)) + Mid(s) + slot.sample
    ensures AsduFields(AsduWith(s, slot))
         == FieldsBefore(s) + [(0x82, ToBE(slot.smpCnt, 2))] + FieldsBetween(s) + [(0x87, slot.sample)]
    ensures EncodeAsdu(AsduWith(s, slot)) == Block(s, slot) && |Block(s, slot)| == AsduLen(s)
  {
    hide EncodeFields, EncodeLength, EncodeTag, AsduFields, ToBE, EncodeInteger;
    var c := (0x82, ToBE(slot.smpCnt, 2));
    var last := (0x87, slot.sample);
    AsduFieldList(s, slot);
    EncodeFieldsConcat(FieldsBefore(s) + [c] + FieldsBetween(s), [last]);
    EncodeFieldsConcat(FieldsBefore(s) + [c], FieldsBetween(s));
    EncodeFieldsConcat(FieldsBefore(s), [c]);
    OneField(c);
    OneField(last);
    ShortTag(0x82);
    ShortLength(2);
  }

  lemma ShortLength(n: nat)
    requires n < 128
    ensures EncodeLength(n) == [n]
  {
  }

  lemma OneField(f: Field)
    ensures EncodeFields([f]) == EncodeTlv(f.0, f.1)
  {
    assert [f][1..] == [];
  }

  lemma FieldsStep(a: seq<Option<Bytes>>, n: nat)
    requires n <= |a| == 10
    ensures FieldsFrom(a, n) == if n == 10 then [] else Optional(0x80 + n, a[n]) + FieldsFrom(a, n + 1)
  {
    hide Optional;
  }

  lemma OnlySamples(a: seq<Option<Bytes>>, z: Bytes)
    requires |a| == 10 && a[6].None? && a[7] == Some(z) && a[8].None? && a[9].None?
    ensures FieldsFrom(a, 6) == [(0x87, z)]
  {
    hide FieldsFrom;
    FieldsStep(a, 10);
    FieldsStep(a, 9);
    FieldsStep(a, 8);
    assert FieldsFrom(a, 8) == [];
    FieldsStep(a, 7);
    FieldsStep(a, 6);
  }

  // The fields after smpCnt: confRev, smpSynch and the samples.
  lemma LastFields(a: seq<Option<Bytes>>, x: Bytes, y: Bytes, z: Bytes)
    requires |a| == 10 && a[3] == Some(x) && a[4].None? && a[5] == Some(y)
    requires a[6].None? && a[7] == Some(z) && a[8].None? && a[9].None?
    ensures FieldsFrom(a, 3) == [(0x83, x), (0x85, y)] + [(0x87, z)]
  {
    hide FieldsFrom;
    OnlySamples(a, z);
    FieldsStep(a, 5);
    FieldsStep(a, 4);
    FieldsStep(a, 3);
    assert FieldsFrom(a, 3) == [(0x83, x)] + ([(0x85, y)] + [(0x87, z)]);
  }

  lemma Regrouped(x: seq<Field>, y: seq<Field>, z: seq<Field>, u: seq<Field>, v: seq<Field>)
    ensures x + (y + (z + (u + v))) == (x + y) + z + u + v
  {
  }

  lemma AsduFieldList(s: Stream, slot: Slot)
    ensures AsduFields(AsduWith(s, slot))
         == FieldsBefore(s) + [(0x82, ToBE(slot.smpCnt, 2))] + FieldsBetween(s) + [(0x87, slot.sample)]
  {
    hide ToBE, FieldsFrom;
    var a := AsduSlots(AsduWith(s, slot));
    LastFields(a, ToBE(s.confRev, 4), ToBE(s.smpSynch, 1), slot.sample);
    FieldsStep(a, 0);
    FieldsStep(a, 1);
    FieldsStep(a, 2);
    Regrouped([(0x80, s.svId)], Optional(0x81, s.datSet), [(0x82, ToBE(slot.smpCnt, 2))], FieldsBetween(s),
              [(0x87, slot.sample)]);
  }

  lemma {:induction false} AsdusAreBlocks(s: Stream, slots: seq<Slot>)
    requires Fits(s, slots)
    ensures EncodeAsdus(AsdusWith(s, slots)) == Blocks(s, slots)
  {
    hide EncodeAsdu, Block, AsduLen, AsduWith;
    if slots != [] {
      AsduIsBlock(s, slots[0]);
      AsdusAreBlocks(s, slots[1..]);
      assert AsdusWith(s, slots)[1..] == AsdusWith(s, slots[1..]);
    }
  }

  lemma {:induction false} BlocksLen(s: Stream, slots: seq<Slot>)
    requires Fits(s, slots)
    ensures |Blocks(s, slots)| == BodyLen(s, |slots|)
  {
    hide Block, AsduLen, BodyLen;
    if slots != [] {
      AsduIsBlock(s, slots[0]);
      BlocksLen(s, slots[1..]);
      BodyLenGrows(s, |slots| - 1);
    } else {
      NoBody(s);
    }
  }

  lemma NoBody(s: Stream)
    ensures BodyLen(s, 0) == 0
  {
  }

  lemma PduFieldList(s: Stream, slots: seq<Slot>)
    requires Fits(s, slots)
    ensures PduFields(SvPdu(AsdusWith(s, slots), None))
         == [(TAG_NO_ASDU, EncodeInteger(|slots|)), (TAG_SEQ_ASDU, Blocks(s, slots))]
    ensures EncodeFields(PduFields(SvPdu(AsdusWith(s, slots), None)))
         == SeqHeader(|slots|, BodyLen(s, |slots|)) + Blocks(s, slots)
  {
    hide EncodeInteger, EncodeTag, EncodeLength, EncodeAsdus, Blocks, BodyLen, EncodeFields;
    AsdusAreBlocks(s, slots);
    BlocksLen(s, slots);
    var a, b := (TAG_NO_ASDU, EncodeInteger(|slots|)), (TAG_SEQ_ASDU, Blocks(s, slots));
    assert PduFields(SvPdu(AsdusWith(s, slots), None)) == [a] + [b] == [a, b];
    EncodeFieldsConcat([a], [b]);
    OneField(a);
    OneField(b);
  }

  lemma ApduLayout(s: Stream, slots: seq<Slot>)
    requires Fits(s, slots)
    ensures Apdu(s, slots) == ApduHeader(|slots|, BodyLen(s, |slots|)) + Blocks(s, slots)
    ensures |Blocks(s, slots)| == BodyLen(s, |slots|)
  {
    hide EncodeInteger, EncodeTag, EncodeLength, EncodeAsdus, Blocks, BodyLen, EncodeFields, SeqHeader, PduFields;
    BlocksLen(s, slots);
    PduFieldList(s, slots);
  }

  // Every frame of a stream is a fixed prefix, then its ASDUs, which differ in smpCnt and
  // samples only.
  lemma FrameLayout(s: Stream, slots: seq<Slot>)
    requires TypedStream(s) && Fits(s, slots) && EncodeSvFrame(s, slots).Ok?
    ensures EncodeSvFrame(s, slots).value == Prefix(s, |slots|) + Blocks(s, slots)
    ensures |Blocks(s, slots)| == BodyLen(s, |slots|)
  {
    hide ApduHeader, Blocks, BodyLen, EncodeSvFrame, EthHeader, Apdu;
    ApduLayout(s, slots);
    HeaderAtLeast(|slots|, BodyLen(s, |slots|));
    Encoded(s, slots);
  }

  lemma HeaderAtLeast(n: nat, size: nat)
    ensures |ApduHeader(n, size)| >= 2
  {
    hide SeqHeader;
  }

  lemma Encoded(s: Stream, slots: seq<Slot>)
    requires TypedStream(s) && EncodeSvFrame(s, slots).Ok? && |Apdu(s, slots)| >= 2
    ensures EncodeSvFrame(s, slots).value == EthHeader(s, |Apdu(s, slots)|) + Apdu(s, slots)
  {
    hide EthHeader, SetSimulated, Apdu, HeaderOctets;
    Simulated(s, Apdu(s, slots));
  }

  // Octets 12 and 13 tell a tagged frame from an untagged one.
  lemma Tagged(a: Address, n: nat, apdu: Bytes)
    requires TypedAddress(a)
    ensures |HeaderOctets(a, ETHERTYPE_SV, n)| >= 22
    ensures (HeaderOctets(a, ETHERTYPE_SV, n) + apdu)[12..14] == [0x81, 0x00] <==> a.vlan.Some?
  {
    EtherTypeOctets();
    hide ToBE;
    var macs := a.dst + a.src;
    var rest := HeaderOctets(a, ETHERTYPE_SV, n) + apdu;
    if a.vlan.Some? {
      assert rest[12..14] == ToBE(ETHERTYPE_VLAN, 2);
    } else {
      assert rest[12..14] == ToBE(ETHERTYPE_SV, 2);
    }
  }

  // Setting the simulation bit turns a Reserved1 of zero into 0x8000.
  lemma Reserved1Set(before: Bytes, tail: Bytes)
    requires |before| + |tail| >= 22 && |before| >= 14
    requires |before| == (if before[12..14] == [0x81, 0x00] then 22 else 18)
    ensures SetSimulated(before + [0, 0] + tail) == before + [0x80, 0x00] + tail
  {
    EtherTypeOctets();
    var frame := before + [0, 0] + tail;
    var at := |before|;
    assert frame[12..14] == before[12..14];
    assert frame[at] == 0 && frame[at + 1] == 0;
    assert frame[..at] == before && frame[at + 2..] == tail;
  }

  lemma Simulated(s: Stream, apdu: Bytes)
    requires TypedStream(s) && |apdu| >= 2
    ensures var frame := HeaderOctets(s.address, ETHERTYPE_SV, |apdu|) + apdu;
            |frame| >= 24 && (if s.simulation then SetSimulated(frame) else frame) == EthHeader(s, |apdu|) + apdu
  {
    hide SetSimulated, ToBE;
    var a := s.address;
    var frame := HeaderOctets(a, ETHERTYPE_SV, |apdu|) + apdu;
    var before := a.dst + a.src + TagOctets(a) + (ToBE(ETHERTYPE_SV, 2) + ToBE(a.appId, 2) + ToBE(HEADER_LEN + |apdu|, 2));
    var tail := [0, 0] + apdu;
    Tagged(a, |apdu|, apdu);
    assert frame == before + [0, 0] + tail;
    assert frame[12..14] == before[12..14];
    Reserved1Set(before, tail);
    assert EthHeader(s, |apdu|) + apdu == before + [if s.simulation then 0x80 else 0x00, 0] + tail;
  }

  lemma EtherTypeOctets()
    ensures ToBE(ETHERTYPE_VLAN, 2) == [0x81, 0x00] && ToBE(ETHERTYPE_SV, 2) == [0x88, 0xBA]
    ensures ToBE(0x8000, 2) == [0x80, 0x00]
  {
    assert ToBE(0x81, 1) == [0x81] && ToBE(0x88, 1) == [0x88] && ToBE(0x80, 1) == [0x80];
  }

  // --- locating --------------------------------------------------------------------------

  // The TLVs read one after the other from `start` until `end` is reached, at their places
  // in `data`.
  function TlvsAt(data: Bytes, start: nat, end: nat): Result<seq<Tlv>, BerError>
    decreases end - start
  {
    if start >= end then Ok([])
    else
      match TlvOf(Suffix(data, start))
      case Err(e) => Err(e)
      case Ok(t) =>
        match TlvsAt(data, start + t.end, end)
        case Err(e) => Err(e)
        case Ok(rest) => Ok([Tlv(t.tag, t.value, start + t.end)] + rest)
  }

  function ContentStart(t: Tlv): int {
    t.end - |t.value|
  }

  // Fields at their places, the first at `start`.
  function Placed(start: nat, fs: seq<Field>): (ts: seq<Tlv>)
    ensures |ts| == |fs|
    decreases |fs|
  {
    if fs == [] then []
    else
      var end := start + |EncodeTlv(fs[0].0, fs[0].1)|;
      [Tlv(fs[0].0, fs[0].1, end)] + Placed(end, fs[1..])
  }

  lemma {:induction false} PlacedAt(start: nat, fs: seq<Field>, k: nat)
    requires k < |fs|
    ensures Placed(start, fs)[k] == Tlv(fs[k].0, fs[k].1, start + |EncodeFields(fs[..k + 1])|)
    decreases k
  {
    hide EncodeTlv;
    var head := EncodeTlv(fs[0].0, fs[0].1);
    assert fs[..k + 1][1..] == fs[1..][..k];
    assert fs[..1][1..] == [];
    if k > 0 {
      PlacedAt(start + |head|, fs[1..], k - 1);
    }
  }

  lemma FirstFieldAt(data: Bytes, start: nat, f: Field, more: Bytes)
    requires f.0 < 0x100 && f.0 % 32 != 31 && |f.1| < TWO_64
    requires start <= |data| && data[start..] == EncodeTlv(f.0, f.1) + more
    ensures TlvOf(Suffix(data, start)) == Ok(Tlv(f.0, f.1, |EncodeTlv(f.0, f.1)|))
    ensures start + |EncodeTlv(f.0, f.1)| <= |data| && data[start + |EncodeTlv(f.0, f.1)|..] == more
  {
    hide TlvOf, EncodeTlv;
    ShortTag(f.0);
    TlvRoundTrip(f.0, f.1, more);
    var n := |EncodeTlv(f.0, f.1)|;
    assert data[start + n..] == data[start..][n..];
  }

  // Fields laid out from `start` are read at their places.
  lemma {:induction false} TlvsAtFields(data: Bytes, start: nat, fs: seq<Field>, rest: Bytes)
    requires ShortTags(fs) && |EncodeFields(fs)| < TWO_64
    requires start <= |data| && data[start..] == EncodeFields(fs) + rest
    ensures IsPlaced(TlvsAt(data, start, start + |EncodeFields(fs)|), start, fs)
    decreases |fs|
  {
    SplitFields(fs);
    hide TlvOf, EncodeTlv, TlvsAt, Suffix, EncodeFields, IsPlaced;
    if fs == [] {
      NothingPlaced(data, start);
    } else {
      var head, tail := EncodeTlv(fs[0].0, fs[0].1), EncodeFields(fs[1..]);
      assert data[start..] == head + (tail + rest);
      FirstFieldAt(data, start, fs[0], tail + rest);
      TlvsAtFields(data, start + |head|, fs[1..], rest);
      PlacedStep(data, start, start + |head| + |tail|, fs);
    }
  }

  lemma SplitFields(fs: seq<Field>)
    ensures fs == [] ==> EncodeFields(fs) == []
    ensures fs != [] ==> EncodeFields(fs) == EncodeTlv(fs[0].0, fs[0].1) + EncodeFields(fs[1..])
    ensures fs != [] ==> |fs[0].1| <= |EncodeFields(fs)| && |EncodeFields(fs[1..])| <= |EncodeFields(fs)|
  {
  }

  lemma NothingPlaced(data: Bytes, start: nat)
    ensures IsPlaced(TlvsAt(data, start, start), start, [])
  {
  }

  ghost predicate IsPlaced(r: Result<seq<Tlv>, BerError>, start: nat, fs: seq<Field>) {
    r.Ok? && r.value == Placed(start, fs)
  }

  lemma PlacedStep(data: Bytes, start: nat, end: nat, fs: seq<Field>)
    requires fs != [] && start < end
    requires TlvOf(Suffix(data, start)) == Ok(Tlv(fs[0].0, fs[0].1, |EncodeTlv(fs[0].0, fs[0].1)|))
    requires var next := start + |EncodeTlv(fs[0].0, fs[0].1)|; IsPlaced(TlvsAt(data, next, end), next, fs[1..])
    ensures IsPlaced(TlvsAt(data, start, end), start, fs)
  {
    hide TlvOf, EncodeTlv;
  }

  // Where the contents of the fields of tag `tag` start.
  function PlacesOf(ts: seq<Tlv>, tag: nat): seq<int> {
    if ts == [] then []
    else (if ts[0].tag == tag then [ContentStart(ts[0])] else []) + PlacesOf(ts[1..], tag)
  }

  // The same over the fields of every item; None when the octets are malformed.
  function PlacesIn(frame: Bytes, items: seq<Tlv>, tag: nat): Option<seq<int>> {
    if items == [] then Some([])
    else if ContentStart(items[0]) < 0 then None
    else
      match TlvsAt(frame, ContentStart(items[0]), items[0].end)
      case Err(_) => None
      case Ok(fields) =>
        match PlacesIn(frame, items[1..], tag)
        case None => None
        case Some(rest) => Some(PlacesOf(fields, tag) + rest)
  }

  function FirstOf(ts: seq<Tlv>, tag: nat): Option<Tlv> {
    if ts == [] then None else if ts[0].tag == tag then Some(ts[0]) else FirstOf(ts[1..], tag)
  }

  // `_locate`: the places of smpCnt and of the samples in each ASDU of an encoded frame.
  function Locate(frame: Bytes, asdus: nat): Option<(seq<int>, seq<int>)> {
    var header := (if |frame| >= 14 && frame[12..14] == [0x81, 0x00] then 18 else 14) + 8;
    match TlvOf(Suffix(frame, header))
    case Err(_) => None
    case Ok(sav) =>
      match TlvsAt(frame, header + sav.end - |sav.value|, header + sav.end)
      case Err(_) => None
      case Ok(fields) =>
        match FirstOf(fields, TAG_SEQ_ASDU)
        case None => None
        case Some(list) =>
          if ContentStart(list) < 0 then None else
          match TlvsAt(frame, ContentStart(list), list.end)
          case Err(_) => None
          case Ok(items) =>
            var counts, samples := PlacesIn(frame, items, 0x82), PlacesIn(frame, items, 0x87);
            if counts.None? || samples.None? || |counts.value| != asdus || |samples.value| != asdus then None
            else Some((counts.value, samples.value))
  }

  // Where the `i`-th ASDU of a stream's frame keeps its smpCnt, and its samples.
  function CountPlace(s: Stream, n: nat, i: nat): nat {
    |Prefix(s, n)| + BodyLen(s, i) + |Head(s)|
  }

  function SamplePlace(s: Stream, n: nat, i: nat): nat {
    CountPlace(s, n, i) + 2 + |Mid(s)|
  }

  function CountPlaces(s: Stream, n: nat): seq<int> {
    seq(n, i requires 0 <= i < n => CountPlace(s, n, i))
  }

  function SamplePlaces(s: Stream, n: nat): seq<int> {
    seq(n, i requires 0 <= i < n => SamplePlace(s, n, i))
  }

  // The frame as a list of items of tag 0x30.
  function ItemFields(s: Stream, slots: seq<Slot>): seq<Field> {
    seq(|slots|, i requires 0 <= i < |slots| => (TAG_ASDU, EncodeFields(AsduFields(AsduWith(s, slots[i])))))
  }

  lemma {:induction false} ItemsAreBlocks(s: Stream, slots: seq<Slot>)
    requires Fits(s, slots)
    ensures EncodeFields(ItemFields(s, slots)) == Blocks(s, slots)
    ensures ShortTags(ItemFields(s, slots))
  {
    hide EncodeTlv;
    hide EncodeAsdu, Block, AsduLen, AsduWith, AsduFields;
    if slots != [] {
      AsduIsBlock(s, slots[0]);
      ItemsAreBlocks(s, slots[1..]);
      assert ItemFields(s, slots)[1..] == ItemFields(s, slots[1..]);
      AsduIsTlv(AsduWith(s, slots[0]));
    }
  }

  lemma AsduIsTlv(a: Asdu)
    ensures EncodeAsdu(a) == EncodeTlv(TAG_ASDU, EncodeFields(AsduFields(a)))
  {
  }

  // Inside one ASDU, at `start` in the frame, smpCnt and the samples are each found once.
  lemma PlacesInAsdu(frame: Bytes, start: nat, s: Stream, slot: Slot, rest: Bytes)
    requires |slot.sample| == 8 * s.channels
    requires var content := EncodeFields(AsduFields(AsduWith(s, slot)));
             |content| < TWO_64 && start <= |frame| && frame[start..] == content + rest
    ensures var content := EncodeFields(AsduFields(AsduWith(s, slot)));
            var r := TlvsAt(frame, start, start + |content|);
            && r.Ok?
            && PlacesOf(r.value, 0x82) == [start + |EncodeFields(FieldsBefore(s))| + 2]
            && PlacesOf(r.value, 0x87) == [start + |EncodeFields(FieldsBefore(s))| + 4 + |Mid(s)|]
  {
    hide EncodeFields, AsduFields, TlvsAt, Placed, PlacesOf, Mid, EncodeTag, EncodeLength;
    var fs := AsduFields(AsduWith(s, slot));
    var content := EncodeFields(fs);
    var c := (0x82, ToBE(slot.smpCnt, 2));
    AsduIsBlock(s, slot);
    assert ShortTags(fs);
    TlvsAtFields(frame, start, fs, rest);
    var ts := Placed(start, fs);
    var b := |FieldsBefore(s)|;
    forall k | 0 <= k < |fs|
      ensures ts[k] == Tlv(fs[k].0, fs[k].1, start + |EncodeFields(fs[..k + 1])|)
    {
      PlacedAt(start, fs, k);
    }
    assert fs[..b + 1] == FieldsBefore(s) + [c];
    EncodeFieldsConcat(FieldsBefore(s), [c]);
    OneField(c);
    ShortTag(0x82);
    ShortLength(2);
    assert fs[..b + 4] == fs;
    PlacesOfLayout(ts, b);
  }

  // One smpCnt after the first fields, one sample at the end.
  lemma PlacesOfLayout(ts: seq<Tlv>, b: nat)
    requires 1 <= b <= 2 && |ts| == b + 4
    requires ts[0].tag == 0x80 && (b == 2 ==> ts[1].tag == 0x81)
    requires ts[b].tag == 0x82 && ts[b + 1].tag == 0x83 && ts[b + 2].tag == 0x85 && ts[b + 3].tag == 0x87
    ensures PlacesOf(ts, 0x82) == [ContentStart(ts[b])]
    ensures PlacesOf(ts, 0x87) == [ContentStart(ts[b + 3])]
  {
    hide PlacesOf;
    assert ts[0..] == ts;
    PlacesFrom(ts, 0);
    if b == 2 {
      PlacesFrom(ts, 1);
    }
    PlacesOfLast(ts, b);
  }

  // The fields from smpCnt on.
  lemma PlacesOfLast(ts: seq<Tlv>, b: nat)
    requires |ts| == b + 4
    requires ts[b].tag == 0x82 && ts[b + 1].tag == 0x83 && ts[b + 2].tag == 0x85 && ts[b + 3].tag == 0x87
    ensures PlacesOf(ts[b..], 0x82) == [ContentStart(ts[b])]
    ensures PlacesOf(ts[b..], 0x87) == [ContentStart(ts[b + 3])]
  {
    assert PlacesOf([], 0x82) == [] && PlacesOf([], 0x87) == [];
    hide PlacesOf;
    PlacesFrom(ts, b + 3);
    PlacesFrom(ts, b + 2);
    PlacesFrom(ts, b + 1);
    assert PlacesOf(ts[b + 1..], 0x82) == [];
    PlacesFrom(ts, b);
  }

  lemma PlacesFrom(ts: seq<Tlv>, k: nat)
    requires k < |ts|
    ensures forall tag :: PlacesOf(ts[k..], tag)
                          == (if ts[k].tag == tag then [ContentStart(ts[k])] else []) + PlacesOf(ts[k + 1..], tag)
    ensures k + 1 == |ts| ==> ts[k + 1..] == []
  {
    assert ts[k..][1..] == ts[k + 1..];
  }

  // The places, ASDU by ASDU, when the first starts at `start`.
  function CountsFrom(s: Stream, start: nat, n: nat): seq<int>
    decreases n
  {
    if n == 0 then [] else [start + |Head(s)|] + CountsFrom(s, start + AsduLen(s), n - 1)
  }

  function SamplesFrom(s: Stream, start: nat, n: nat): seq<int>
    decreases n
  {
    if n == 0 then [] else [start + |Head(s)| + 2 + |Mid(s)|] + SamplesFrom(s, start + AsduLen(s), n - 1)
  }

  // Octets of an ASDU before its content.
  function ItemHead(s: Stream): nat {
    |EncodeTag(TAG_ASDU) + EncodeLength(AsduContentLen(s))|
  }

  // Where the content of an ASDU starts, and how its parts add up.
  lemma AsduParts(s: Stream, slot: Slot)
    requires |slot.sample| == 8 * s.channels
    ensures var content := EncodeFields(AsduFields(AsduWith(s, slot)));
            && |content| == AsduContentLen(s)
            && |EncodeTlv(TAG_ASDU, content)| == AsduLen(s)
            && AsduLen(s) == ItemHead(s) + |content|
            && ItemHead(s) + |EncodeFields(FieldsBefore(s))| + 2 == |Head(s)|
            && EncodeTlv(TAG_ASDU, content) == (EncodeTag(TAG_ASDU) + EncodeLength(|content|)) + content
  {
    hide EncodeFields, AsduFields, EncodeTag, EncodeLength, Mid;
    AsduIsBlock(s, slot);
    AsduIsTlv(AsduWith(s, slot));
  }

  lemma PlacesInFirst(frame: Bytes, start: nat, s: Stream, slot: Slot, more: Bytes)
    requires |slot.sample| == 8 * s.channels && AsduLen(s) < TWO_64
    requires start <= |frame| && frame[start..] == Block(s, slot) + more
    ensures var r := TlvsAt(frame, start + ItemHead(s), start + AsduLen(s));
            && r.Ok?
            && PlacesOf(r.value, 0x82) == [start + |Head(s)|]
            && PlacesOf(r.value, 0x87) == [start + |Head(s)| + 2 + |Mid(s)|]
    ensures start + AsduLen(s) <= |frame| && frame[start + AsduLen(s)..] == more
  {
    hide EncodeFields, AsduFields, TlvsAt, PlacesOf, EncodeTag, EncodeLength, EncodeTlv, Mid, Head, AsduLen, Block;
    var content := EncodeFields(AsduFields(AsduWith(s, slot)));
    var before := EncodeTag(TAG_ASDU) + EncodeLength(|content|);
    AsduParts(s, slot);
    AsduIsBlock(s, slot);
    AsduIsTlv(AsduWith(s, slot));
    assert frame[start..] == before + (content + more);
    assert frame[start + |before|..] == frame[start..][|before|..] == content + more;
    PlacesInAsdu(frame, start + |before|, s, slot, more);
    assert frame[start + AsduLen(s)..] == frame[start..][AsduLen(s)..] == more;
  }

  lemma {:induction false} PlacesInBlocks(frame: Bytes, start: nat, s: Stream, slots: seq<Slot>, rest: Bytes)
    requires Fits(s, slots) && AsduLen(s) < TWO_64
    requires start <= |frame| && frame[start..] == Blocks(s, slots) + rest
    ensures PlacesIn(frame, Placed(start, ItemFields(s, slots)), 0x82) == Some(CountsFrom(s, start, |slots|))
    ensures PlacesIn(frame, Placed(start, ItemFields(s, slots)), 0x87) == Some(SamplesFrom(s, start, |slots|))
    decreases |slots|
  {
    NoPlaces(s, start);
    NoneIn(frame, start);
    hide EncodeFields, AsduFields, TlvsAt, PlacesOf, EncodeTlv, Mid, Head, AsduLen, Block, Placed, PlacesIn;
    var fs := ItemFields(s, slots);
    if slots == [] {
      assert fs == [];
    } else {
      var next := start + AsduLen(s);
      assert frame[start..] == Block(s, slots[0]) + (Blocks(s, slots[1..]) + rest);
      PlacesInFirst(frame, start, s, slots[0], Blocks(s, slots[1..]) + rest);
      PlacesInBlocks(frame, next, s, slots[1..], rest);
      AsduParts(s, slots[0]);
      assert fs[1..] == ItemFields(s, slots[1..]);
      PlacedFirst(start, fs);
      PlacesInStep(frame, Tlv(fs[0].0, fs[0].1, next), Placed(next, fs[1..]), 0x82);
      PlacesInStep(frame, Tlv(fs[0].0, fs[0].1, next), Placed(next, fs[1..]), 0x87);
    }
  }

  lemma PlacesInStep(frame: Bytes, t: Tlv, ts: seq<Tlv>, tag: nat)
    requires ContentStart(t) >= 0 && TlvsAt(frame, ContentStart(t), t.end).Ok? && PlacesIn(frame, ts, tag).Some?
    ensures PlacesIn(frame, [t] + ts, tag)
         == Some(PlacesOf(TlvsAt(frame, ContentStart(t), t.end).value, tag) + PlacesIn(frame, ts, tag).value)
  {
    hide TlvsAt, PlacesOf;
    assert ([t] + ts)[1..] == ts;
  }

  lemma NoneIn(frame: Bytes, start: nat)
    ensures Placed(start, []) == [] && PlacesIn(frame, [], 0x82) == Some([]) && PlacesIn(frame, [], 0x87) == Some([])
  {
  }

  lemma PlacedFirst(start: nat, fs: seq<Field>)
    requires fs != []
    ensures var end := start + |EncodeTlv(fs[0].0, fs[0].1)|;
            Placed(start, fs) == [Tlv(fs[0].0, fs[0].1, end)] + Placed(end, fs[1..])
  {
    hide EncodeTlv;
  }

  lemma {:induction false} PlacesByIndex(s: Stream, start: nat, n: nat, i: nat)
    requires i < n
    ensures |CountsFrom(s, start, n)| == |SamplesFrom(s, start, n)| == n
    ensures CountsFrom(s, start, n)[i] == start + BodyLen(s, i) + |Head(s)|
    ensures SamplesFrom(s, start, n)[i] == start + BodyLen(s, i) + |Head(s)| + 2 + |Mid(s)|
    decreases n
  {
    hide Head, Mid, AsduLen, BodyLen;
    NoBody(s);
    if n > 1 {
      PlacesByIndex(s, start + AsduLen(s), n - 1, if i == 0 then 0 else i - 1);
    }
    if i > 0 {
      BodyLenGrows(s, i - 1);
    }
  }

  // A stream's frame is its Ethernet header, then its APDU.
  lemma FrameParts(s: Stream, slots: seq<Slot>)
    requires TypedStream(s) && Fits(s, slots) && EncodeSvFrame(s, slots).Ok?
    ensures var frame := EncodeSvFrame(s, slots).value;
            var header := (if |frame| >= 14 && frame[12..14] == [0x81, 0x00] then 18 else 14) + 8;
            && frame == EthHeader(s, |Apdu(s, slots)|) + Apdu(s, slots)
            && |EthHeader(s, |Apdu(s, slots)|)| == header
            && |Apdu(s, slots)| < 0x1_0000
  {
    hide PduFields, EncodeFields, SetSimulated;
    var apdu := Apdu(s, slots);
    Simulated(s, apdu);
    EthHeaderStart(s, |apdu|, apdu);
  }

  lemma EthHeaderStart(s: Stream, n: nat, apdu: Bytes)
    requires TypedStream(s)
    ensures var frame := EthHeader(s, n) + apdu;
            && |EthHeader(s, n)| == (if s.address.vlan.Some? then 26 else 22)
            && (frame[12..14] == [0x81, 0x00] <==> s.address.vlan.Some?)
  {
    var a := s.address;
    var frame := EthHeader(s, n) + apdu;
    EtherTypeOctets();
    if a.vlan.Some? {
      assert frame[12..14] == ToBE(ETHERTYPE_VLAN, 2);
    } else {
      assert frame[12..14] == ToBE(ETHERTYPE_SV, 2);
    }
  }

  // The APDU of a stream, field by field.
  lemma ApduFields(s: Stream, slots: seq<Slot>) returns (fs: seq<Field>)
    requires Fits(s, slots)
    ensures fs == [(TAG_NO_ASDU, EncodeInteger(|slots|)), (TAG_SEQ_ASDU, Blocks(s, slots))]
    ensures Apdu(s, slots) == EncodeTlv(TAG_SAV_PDU, EncodeFields(fs))
  {
    hide EncodeInteger, EncodeTlv, EncodeFields, PduFields, BodyLen, ApduHeader, Blocks;
    PduFieldList(s, slots);
    fs := PduFields(SvPdu(AsdusWith(s, slots), None));
  }

  // The two fields of the APDU at their places: seqASDU ends where the APDU does.
  lemma SeqFound(frame: Bytes, at: nat, n: nat, blocks: Bytes, fs: seq<Field>)
    requires fs == [(TAG_NO_ASDU, EncodeInteger(n)), (TAG_SEQ_ASDU, blocks)]
    requires at <= |frame| && frame[at..] == EncodeFields(fs) && |frame| < TWO_64
    ensures var fields := TlvsAt(frame, at, |frame|);
            && fields.Ok? && FirstOf(fields.value, TAG_SEQ_ASDU) == Some(Tlv(TAG_SEQ_ASDU, blocks, |frame|))
  {
    hide EncodeInteger, EncodeFields, EncodeTlv, TlvsAt;
    assert EncodeFields(fs) + [] == EncodeFields(fs);
    TlvsAtFields(frame, at, fs, []);
    PlacedAt(at, fs, 1);
    PlacedAt(at, fs, 0);
    assert fs[..2] == fs;
    var ts := Placed(at, fs);
    assert ts == [ts[0], ts[1]] && ts[1..] == [ts[1]];
  }

  lemma ItemsFound(frame: Bytes, start: nat, s: Stream, slots: seq<Slot>)
    requires Fits(s, slots) && AsduLen(s) < TWO_64 && |frame| < TWO_64
    requires start <= |frame| && frame[start..] == Blocks(s, slots)
    ensures var items := TlvsAt(frame, start, |frame|);
            && items.Ok?
            && PlacesIn(frame, items.value, 0x82) == Some(CountsFrom(s, start, |slots|))
            && PlacesIn(frame, items.value, 0x87) == Some(SamplesFrom(s, start, |slots|))
  {
    hide EncodeFields, TlvsAt, Placed, PlacesIn, CountsFrom, SamplesFrom, Blocks, ItemFields, AsduLen;
    assert Blocks(s, slots) + [] == Blocks(s, slots);
    ItemsAreBlocks(s, slots);
    TlvsAtFields(frame, start, ItemFields(s, slots), []);
    PlacesInBlocks(frame, start, s, slots, []);
  }

  // The PDU behind the Ethernet header, and where its content begins.
  lemma SavFound(frame: Bytes, header: nat, content: Bytes)
    requires header <= |frame| && frame[header..] == EncodeTlv(TAG_SAV_PDU, content) && |frame| < TWO_64
    ensures TlvOf(Suffix(frame, header)) == Ok(Tlv(TAG_SAV_PDU, content, |frame| - header))
    ensures |content| <= |frame| && frame[|frame| - |content|..] == content
  {
    hide TlvOf, EncodeTlv;
    var apdu := EncodeTlv(TAG_SAV_PDU, content);
    ShortTag(TAG_SAV_PDU);
    ContentFits(TAG_SAV_PDU, content);
    TlvRoundTrip(TAG_SAV_PDU, content, []);
    assert apdu + [] == apdu;
    ContentIsLast(TAG_SAV_PDU, content);
    assert frame[|frame| - |content|..] == frame[header..][|apdu| - |content|..];
  }

  lemma ContentIsLast(tag: nat, content: Bytes)
    ensures |content| <= |EncodeTlv(tag, content)|
    ensures EncodeTlv(tag, content)[|EncodeTlv(tag, content)| - |content|..] == content
  {
    hide EncodeTag, EncodeLength;
  }

  lemma BlocksAreLast(s: Stream, slots: seq<Slot>)
    requires TypedStream(s) && Fits(s, slots) && EncodeSvFrame(s, slots).Ok?
    ensures var frame := EncodeSvFrame(s, slots).value;
            && |Blocks(s, slots)| == BodyLen(s, |slots|) && |frame| - |Blocks(s, slots)| == |Prefix(s, |slots|)|
            && frame[|frame| - |Blocks(s, slots)|..] == Blocks(s, slots)
  {
    hide EncodeSvFrame, Prefix, Blocks, BodyLen;
    FrameLayout(s, slots);
  }

  // `_locate` finds exactly the smpCnt and sample windows of every ASDU.
  lemma LocateFinds(s: Stream, slots: seq<Slot>)
    requires TypedStream(s) && Fits(s, slots) && slots != [] && EncodeSvFrame(s, slots).Ok?
    ensures Locate(EncodeSvFrame(s, slots).value, |slots|)
         == Some((CountPlaces(s, |slots|), SamplePlaces(s, |slots|)))
  {
    hide *;
    BlocksAreLast(s, slots);
    ApduIsLast(s, slots);
    OneAsduFits(s, |slots|);
    var fs := ApduFields(s, slots);
    LocateIn(EncodeSvFrame(s, slots).value, |EthHeader(s, |Apdu(s, slots)|)|, s, slots, fs);
  }

  lemma ApduIsLast(s: Stream, slots: seq<Slot>)
    requires TypedStream(s) && Fits(s, slots) && EncodeSvFrame(s, slots).Ok?
    ensures var frame, header := EncodeSvFrame(s, slots).value, |EthHeader(s, |Apdu(s, slots)|)|;
            && header == (if |frame| >= 14 && frame[12..14] == [0x81, 0x00] then 18 else 14) + 8 <= |frame| < TWO_64
            && frame[header..] == Apdu(s, slots)
  {
    hide Apdu, EthHeader, EncodeSvFrame;
    FrameParts(s, slots);
  }

  lemma LocateIn(frame: Bytes, header: nat, s: Stream, slots: seq<Slot>, fs: seq<Field>)
    requires header == (if |frame| >= 14 && frame[12..14] == [0x81, 0x00] then 18 else 14) + 8 <= |frame| < TWO_64
    requires fs == [(TAG_NO_ASDU, EncodeInteger(|slots|)), (TAG_SEQ_ASDU, Blocks(s, slots))]
    requires frame[header..] == EncodeTlv(TAG_SAV_PDU, EncodeFields(fs))
    requires Fits(s, slots) && AsduLen(s) <= |Blocks(s, slots)| <= |frame|
    requires |frame| - |Blocks(s, slots)| == |Prefix(s, |slots|)|
    requires frame[|frame| - |Blocks(s, slots)|..] == Blocks(s, slots)
    ensures Locate(frame, |slots|) == Some((CountPlaces(s, |slots|), SamplePlaces(s, |slots|)))
  {
    hide TlvOf, TlvsAt, EncodeFields, Prefix, PlacesIn, FirstOf, CountPlaces, EncodeTlv, SamplePlaces, CountsFrom,
         SamplesFrom, Blocks, EncodeInteger, Suffix, Locate, Fits, AsduLen;
    var content := EncodeFields(fs);
    SavFound(frame, header, content);
    SeqFound(frame, |frame| - |content|, |slots|, Blocks(s, slots), fs);
    var start := |frame| - |Blocks(s, slots)|;
    ItemsFound(frame, start, s, slots);
    FromPrefix(s, |slots|, start);
    LocateSteps(frame, header, |slots|, Tlv(TAG_SAV_PDU, content, |frame| - header),
                Tlv(TAG_SEQ_ASDU, Blocks(s, slots), |frame|));
  }

  lemma LocateSteps(frame: Bytes, header: nat, n: nat, sav: Tlv, list: Tlv)
    requires header == (if |frame| >= 14 && frame[12..14] == [0x81, 0x00] then 18 else 14) + 8
    requires TlvOf(Suffix(frame, header)) == Ok(sav) && header + sav.end == |frame| == list.end
    requires |sav.value| <= |frame| && TlvsAt(frame, |frame| - |sav.value|, |frame|).Ok?
    requires FirstOf(TlvsAt(frame, |frame| - |sav.value|, |frame|).value, TAG_SEQ_ASDU) == Some(list)
    requires |list.value| <= |frame| && TlvsAt(frame, |frame| - |list.value|, |frame|).Ok?
    requires var items := TlvsAt(frame, |frame| - |list.value|, |frame|).value;
             && PlacesIn(frame, items, 0x82).Some? && |PlacesIn(frame, items, 0x82).value| == n
             && PlacesIn(frame, items, 0x87).Some? && |PlacesIn(frame, items, 0x87).value| == n
    ensures var items := TlvsAt(frame, |frame| - |list.value|, |frame|).value;
            Locate(frame, n) == Some((PlacesIn(frame, items, 0x82).value, PlacesIn(frame, items, 0x87).value))
  {
    hide TlvOf, TlvsAt, FirstOf, PlacesIn, Suffix;
  }

  lemma OneAsduFits(s: Stream, n: nat)
    requires n > 0
    ensures AsduLen(s) <= BodyLen(s, n)
  {
    TimesAtMost(1, n, AsduLen(s));
  }

  lemma FromPrefix(s: Stream, n: nat, start: nat)
    requires start == |Prefix(s, n)|
    ensures CountsFrom(s, start, n) == CountPlaces(s, n)
    ensures SamplesFrom(s, start, n) == SamplePlaces(s, n)
    ensures |CountPlaces(s, n)| == |SamplePlaces(s, n)| == n
  {
    hide Prefix, CountsFrom, SamplesFrom, BodyLen, Head, Mid;
    NoPlaces(s, start);
    if n > 0 {
      PlacesByIndex(s, start, n, 0);
    }
    forall i | 0 <= i < n
      ensures CountsFrom(s, start, n)[i] == CountPlace(s, n, i)
      ensures SamplesFrom(s, start, n)[i] == SamplePlace(s, n, i)
    {
      PlacesByIndex(s, start, n, i);
    }
  }

  lemma NoPlaces(s: Stream, start: nat)
    ensures CountsFrom(s, start, 0) == [] && SamplesFrom(s, start, 0) == []
  {
  }

  // --- `_locate`, by loops -----------------------------------------------------------------

  // The list read so far, `out`, and the octets left, from `offset`, make up the whole.
  ghost predicate Reading(data: Bytes, start: nat, end: nat, out: seq<Tlv>, offset: nat) {
    TlvsAt(data, start, end) == match TlvsAt(data, offset, end)
                                case Err(e) => Err(e)
                                case Ok(more) => Ok(out + more)
  }

  lemma ReadingStarts(data: Bytes, start: nat, end: nat)
    ensures Reading(data, start, end, [], start)
  {
    hide TlvOf;
    var r := TlvsAt(data, start, end);
    if r.Ok? {
      assert [] + r.value == r.value;
    }
  }

  lemma ReadingEnds(data: Bytes, start: nat, end: nat, out: seq<Tlv>, offset: nat)
    requires Reading(data, start, end, out, offset) && offset >= end
    ensures TlvsAt(data, start, end) == Ok(out)
  {
    hide TlvOf;
    assert out + [] == out;
  }

  lemma ReadingFails(data: Bytes, start: nat, end: nat, out: seq<Tlv>, offset: nat, e: BerError)
    requires Reading(data, start, end, out, offset) && offset < end && TlvOf(Suffix(data, offset)) == Err(e)
    ensures TlvsAt(data, start, end) == Err(e)
  {
    hide TlvOf;
  }

  lemma ReadingGoesOn(data: Bytes, start: nat, end: nat, out: seq<Tlv>, offset: nat, t: Tlv)
    requires Reading(data, start, end, out, offset) && offset < end && TlvOf(Suffix(data, offset)) == Ok(t)
    ensures t.end > 0
    ensures Reading(data, start, end, out + [Tlv(t.tag, t.value, offset + t.end)], offset + t.end)
  {
    hide TlvOf;
    var r := TlvsAt(data, offset + t.end, end);
    var placed := Tlv(t.tag, t.value, offset + t.end);
    if r.Ok? {
      assert out + ([placed] + r.value) == (out + [placed]) + r.value;
    }
  }

  // One more element of the list.
  method ReadNext(data: Bytes, ghost start: nat, end: nat, out: seq<Tlv>, offset: nat)
    returns (r: Result<(seq<Tlv>, nat), BerError>)
    requires Reading(data, start, end, out, offset) && offset < end
    ensures r.Err? ==> TlvsAt(data, start, end) == Err(r.error)
    ensures r.Ok? ==> offset < r.value.1 && Reading(data, start, end, r.value.0, r.value.1)
  {
    hide TlvOf, TlvsAt, Reading;
    var t := TlvOf(Suffix(data, offset));
    if t.Err? {
      ReadingFails(data, start, end, out, offset, t.error);
      return Err(t.error);
    }
    ReadingGoesOn(data, start, end, out, offset, t.value);
    return Ok((out + [Tlv(t.value.tag, t.value.value, offset + t.value.end)], offset + t.value.end));
  }

  // `_tlvs_at`.
  method ListTlvs(data: Bytes, start: nat, end: nat) returns (r: Result<seq<Tlv>, BerError>)
    ensures r == TlvsAt(data, start, end)
  {
    var out, offset := [], start;
    ReadingStarts(data, start, end);
    while offset < end
      invariant Reading(data, start, end, out, offset)
      decreases end - offset
    {
      var next := ReadNext(data, start, end, out, offset);
      if next.Err? {
        return Err(next.error);
      }
      out, offset := next.value.0, next.value.1;
    }
    ReadingEnds(data, start, end, out, offset);
    return Ok(out);
  }

  // The offsets of the fields `tag` of the items, in order.
  ghost predicate Collected(frame: Bytes, all: seq<Tlv>, i: nat, tag: nat, out: seq<int>)
    requires i <= |all|
  {
    PlacesIn(frame, all, tag) == match PlacesIn(frame, all[i..], tag)
                                 case None => None
                                 case Some(more) => Some(out + more)
  }

  lemma CollectedStarts(frame: Bytes, all: seq<Tlv>, tag: nat)
    ensures Collected(frame, all, 0, tag, [])
  {
    hide PlacesIn;
    assert all[0..] == all;
    var r := PlacesIn(frame, all, tag);
    if r.Some? {
      assert [] + r.value == r.value;
    }
  }

  lemma CollectedStep(frame: Bytes, all: seq<Tlv>, i: nat, tag: nat, out: seq<int>)
    requires i < |all| && Collected(frame, all, i, tag, out)
    requires ContentStart(all[i]) >= 0 && TlvsAt(frame, ContentStart(all[i]), all[i].end).Ok?
    ensures var fields := TlvsAt(frame, ContentStart(all[i]), all[i].end).value;
            Collected(frame, all, i + 1, tag, out + PlacesOf(fields, tag))
  {
    hide TlvsAt, PlacesOf;
    var fields := TlvsAt(frame, ContentStart(all[i]), all[i].end).value;
    assert all[i..][1..] == all[i + 1..];
    var r := PlacesIn(frame, all[i + 1..], tag);
    if r.Some? {
      assert out + (PlacesOf(fields, tag) + r.value) == (out + PlacesOf(fields, tag)) + r.value;
    }
  }

  lemma CollectedFails(frame: Bytes, all: seq<Tlv>, i: nat, tag: nat, out: seq<int>)
    requires i < |all| && Collected(frame, all, i, tag, out)
    requires ContentStart(all[i]) < 0 || TlvsAt(frame, ContentStart(all[i]), all[i].end).Err?
    ensures PlacesIn(frame, all, tag).None?
  {
    hide TlvsAt, PlacesOf;
  }

  lemma CollectedAll(frame: Bytes, all: seq<Tlv>, tag: nat, out: seq<int>)
    requires Collected(frame, all, |all|, tag, out)
    ensures PlacesIn(frame, all, tag) == Some(out)
  {
    assert out + [] == out;
  }

  lemma PlacesOfNext(fields: seq<Tlv>, i: nat, tag: nat, found: seq<int>)
    requires i < |fields|
    ensures found + PlacesOf(fields[i..], tag)
         == (if fields[i].tag == tag then found + [ContentStart(fields[i])] else found) + PlacesOf(fields[i + 1..], tag)
  {
    hide ContentStart;
    assert fields[i..][1..] == fields[i + 1..];
  }

  // The innermost loop: the smpCnt and the sample fields of one ASDU.
  method FieldPlaces(fields: seq<Tlv>) returns (counts: seq<int>, samples: seq<int>)
    ensures counts == PlacesOf(fields, 0x82) && samples == PlacesOf(fields, 0x87)
  {
    counts, samples := [], [];
    for i := 0 to |fields|
      invariant PlacesOf(fields, 0x82) == counts + PlacesOf(fields[i..], 0x82)
      invariant PlacesOf(fields, 0x87) == samples + PlacesOf(fields[i..], 0x87)
    {
      PlacesOfNext(fields, i, 0x82, counts);
      PlacesOfNext(fields, i, 0x87, samples);
      if fields[i].tag == 0x82 {
        counts := counts + [ContentStart(fields[i])];
      } else if fields[i].tag == 0x87 {
        samples := samples + [ContentStart(fields[i])];
      }
    }
  }

  method ItemPlaces(frame: Bytes, items: seq<Tlv>) returns (r: Option<(seq<int>, seq<int>)>)
    ensures r == match (PlacesIn(frame, items, 0x82), PlacesIn(frame, items, 0x87))
                 case (Some(counts), Some(samples)) => Some((counts, samples))
                 case _ => None
  {
    var counts, samples := [], [];
    CollectedStarts(frame, items, 0x82);
    CollectedStarts(frame, items, 0x87);
    for i := 0 to |items|
      invariant Collected(frame, items, i, 0x82, counts) && Collected(frame, items, i, 0x87, samples)
    {
      if ContentStart(items[i]) < 0 {
        CollectedFails(frame, items, i, 0x82, counts);
        return None;
      }
      var fields := ListTlvs(frame, ContentStart(items[i]), items[i].end);
      if fields.Err? {
        CollectedFails(frame, items, i, 0x82, counts);
        return None;
      }
      CollectedStep(frame, items, i, 0x82, counts);
      CollectedStep(frame, items, i, 0x87, samples);
      var smpCnts, sampleFields := FieldPlaces(fields.value);
      counts, samples := counts + smpCnts, samples + sampleFields;
    }
    CollectedAll(frame, items, 0x82, counts);
    CollectedAll(frame, items, 0x87, samples);
    return Some((counts, samples));
  }

  // The first field of a tag, as a generator finds it.
  method FindField(ts: seq<Tlv>, tag: nat) returns (r: Option<Tlv>)
    ensures r == FirstOf(ts, tag)
  {
    for i := 0 to |ts|
      invariant FirstOf(ts, tag) == FirstOf(ts[i..], tag)
    {
      if ts[i].tag == tag {
        return Some(ts[i]);
      }
      assert ts[i..][1..] == ts[i + 1..];
    }
    return None;
  }

  method LocateByLoops(frame: Bytes, asdus: nat) returns (r: Option<(seq<int>, seq<int>)>)
    ensures r == Locate(frame, asdus)
  {
    hide TlvOf, TlvsAt, PlacesIn, FirstOf, Suffix;
    var header := (if |frame| >= 14 && frame[12..14] == [0x81, 0x00] then 18 else 14) + 8;
    var sav := TlvOf(Suffix(frame, header));
    if sav.Err? {
      return None;
    }
    var fields := ListTlvs(frame, header + sav.value.end - |sav.value.value|, header + sav.value.end);
    if fields.Err? {
      return None;
    }
    var list := FindField(fields.value, TAG_SEQ_ASDU);
    if list.None? || ContentStart(list.value) < 0 {
      return None;
    }
    var items := ListTlvs(frame, ContentStart(list.value), list.value.end);
    if items.Err? {
      return None;
    }
    var places := ItemPlaces(frame, items.value);
    if places.None? || |places.value.0| != asdus || |places.value.1| != asdus {
      return None;
    }
    return places;
  }

  // --- rendering -------------------------------------------------------------------------

  type Int32 = v: int | -0x8000_0000 <= v < 0x8000_0000

  type Quality = q: nat | q < 0x1_0000_0000

  // The value and the quality of every channel at sample `smpCnt` of a UNIX second.
  type Source = (int, nat) -> seq<(Int32, Quality)>

  ghost predicate Channels(source: Source, channels: nat) {
    forall second, smp :: |source(second, smp)| == channels
  }

  // An INT32 in two's complement, then the quality.
  function PackSample(v: (Int32, Quality)): (s: Bytes)
    ensures |s| == 8
  {
    ToBE(if v.0 < 0 then TWO_32 + v.0 else v.0, 4) + ToBE(v.1, 4)
  }

  function EncodeSamples(row: seq<(Int32, Quality)>): (s: Bytes)
    ensures |s| == 8 * |row|
  {
    if row == [] then [] else EncodeSamples(row[..|row| - 1]) + PackSample(row[|row| - 1])
  }

  // What the ASDUs of a frame must carry: consecutive samples from `first` of `second`,
  // numbered modulo the rate, in the second they fall in.
  function Numbered(source: Source, second: int, first: nat, rate: nat, i: nat): Slot
    requires rate > 0
  {
    Slot((first + i) % rate, EncodeSamples(source(second + (first + i) / rate, (first + i) % rate)))
  }

  function NumberedSlots(source: Source, second: int, first: nat, rate: nat, n: nat): (r: seq<Slot>)
    requires rate > 0
    ensures |r| == n
  {
    seq(n, i requires 0 <= i < n => Numbered(source, second, first, rate, i))
  }

  function Patched(b: Bytes, at: nat, octets: Bytes): (r: Bytes)
    requires at + |octets| <= |b|
    ensures |r| == |b|
  {
    b[..at] + octets + b[at + |octets|..]
  }

  method Patch(buf: array<Octet>, at: nat, octets: Bytes)
    requires at + |octets| <= buf.Length
    modifies buf
    ensures buf[..] == Patched(old(buf[..]), at, octets)
  {
    for i := 0 to |octets|
      invariant forall k :: 0 <= k < i ==> buf[at + k] == octets[k]
      invariant forall k :: 0 <= k < at || at + i <= k < buf.Length ==> buf[k] == old(buf[k])
    {
      buf[at + i] := octets[i];
    }
  }

  // The first `ch` channels of a row, written from `at` on.
  function RowPatched(b: Bytes, at: nat, row: seq<(Int32, Quality)>, ch: nat): (r: Bytes)
    requires ch <= |row| && at + 8 * ch <= |b|
    ensures |r| == |b|
  {
    if ch == 0 then b else Patched(RowPatched(b, at, row, ch - 1), at + 8 * (ch - 1), PackSample(row[ch - 1]))
  }

  function AsduPatched(b: Bytes, smpAt: nat, sampleAt: nat, smp: nat, row: seq<(Int32, Quality)>): (r: Bytes)
    requires smpAt + 2 <= |b| && sampleAt + 8 * |row| <= |b|
    ensures |r| == |b|
  {
    RowPatched(Patched(b, smpAt, ToBE(smp, 2)), sampleAt, row, |row|)
  }

  method PatchAsdu(buf: array<Octet>, smpAt: nat, sampleAt: nat, smp: nat, row: seq<(Int32, Quality)>)
    requires smpAt + 2 <= buf.Length && sampleAt + 8 * |row| <= buf.Length
    modifies buf
    ensures buf[..] == AsduPatched(old(buf[..]), smpAt, sampleAt, smp, row)
  {
    hide Patched, RowPatched, ToBE;
    Patch(buf, smpAt, ToBE(smp, 2));
    PatchRow(buf, sampleAt, row);
  }

  method PatchRow(buf: array<Octet>, at: nat, row: seq<(Int32, Quality)>)
    requires at + 8 * |row| <= buf.Length
    modifies buf
    ensures buf[..] == RowPatched(old(buf[..]), at, row, |row|)
  {
    for ch := 0 to |row|
      invariant buf[..] == RowPatched(old(buf[..]), at, row, ch)
    {
      Patch(buf, at + 8 * ch, PackSample(row[ch]));
    }
  }

  // What the template must offer: windows inside the frame.
  ghost predicate Windows(length: nat, counts: seq<int>, samples: seq<int>, channels: nat) {
    && |counts| == |samples|
    && (forall i :: 0 <= i < |counts| ==> 0 <= counts[i] && counts[i] + 2 <= length)
    && (forall i :: 0 <= i < |samples| ==> 0 <= samples[i] && samples[i] + 8 * channels <= length)
  }

  // The first `n` ASDUs, patched.
  ghost function FramePatched(b: Bytes, counts: seq<int>, samples: seq<int>, source: Source, channels: nat,
                              second: int, first: nat, rate: nat, n: nat): (r: Bytes)
    requires rate > 0 && Channels(source, channels) && Windows(|b|, counts, samples, channels) && n <= |counts|
    ensures |r| == |b|
  {
    if n == 0 then b
    else
      var k := first + n - 1;
      AsduPatched(FramePatched(b, counts, samples, source, channels, second, first, rate, n - 1),
                  counts[n - 1], samples[n - 1], k % rate, source(second + k / rate, k % rate))
  }

  // One ASDU of the frame, with the second its sample falls in.
  method RenderAsdu(buf: array<Octet>, ghost b: Bytes, counts: seq<int>, samples: seq<int>, source: Source,
                    ghost channels: nat, second: int, first: nat, rate: nat, i: nat)
    requires rate > 0 && Channels(source, channels) && Windows(|b|, counts, samples, channels) && i < |counts|
    requires |b| == buf.Length && buf[..] == FramePatched(b, counts, samples, source, channels, second, first, rate, i)
    modifies buf
    ensures buf[..] == FramePatched(b, counts, samples, source, channels, second, first, rate, i + 1)
  {
    hide AsduPatched;
    var sec, smp := second + (first + i) / rate, (first + i) % rate;
    PatchAsdu(buf, counts[i], samples[i], smp, source(sec, smp));
  }

  // `render_frame`, and the native engine's `render` in a buffer it rendered before.
  method RenderFrame(buf: array<Octet>, counts: seq<int>, samples: seq<int>, source: Source, ghost channels: nat,
                     second: int, first: nat, rate: nat)
    requires rate > 0 && Channels(source, channels) && Windows(buf.Length, counts, samples, channels)
    modifies buf
    ensures buf[..] == FramePatched(old(buf[..]), counts, samples, source, channels, second, first, rate, |counts|)
  {
    ghost var b := buf[..];
    for i := 0 to |counts|
      invariant buf[..] == FramePatched(b, counts, samples, source, channels, second, first, rate, i)
    {
      RenderAsdu(buf, b, counts, samples, source, channels, second, first, rate, i);
    }
  }

  lemma {:induction false} BlocksSplit(s: Stream, slots: seq<Slot>, i: nat)
    requires i < |slots|
    ensures Blocks(s, slots) == Blocks(s, slots[..i]) + Block(s, slots[i]) + Blocks(s, slots[i + 1..])
    decreases i
  {
    hide Block;
    if i == 0 {
      assert slots[..0] == [];
    } else {
      BlocksSplit(s, slots[1..], i - 1);
      assert slots[1..][..i - 1] == slots[..i][1..] && slots[1..][i..] == slots[i + 1..];
    }
  }

  lemma PatchedInside(a: Bytes, b: Bytes, c: Bytes, at: nat, octets: Bytes)
    requires at + |octets| <= |b|
    ensures Patched(a + b + c, |a| + at, octets) == a + Patched(b, at, octets) + c
  {
    var whole := a + b + c;
    assert whole[..|a| + at] == a + b[..at];
    assert whole[|a| + at + |octets|..] == b[at + |octets|..] + c;
  }

  lemma BlockCount(s: Stream, slot: Slot, count: nat)
    requires |slot.sample| == 8 * s.channels
    ensures |Block(s, slot)| == AsduLen(s) && |Head(s)| + 2 <= AsduLen(s)
    ensures Patched(Block(s, slot), |Head(s)|, ToBE(count, 2)) == Block(s, Slot(count, slot.sample))
  {
    hide Head, Mid, ToBE;
    var block := Block(s, slot);
    assert block[..|Head(s)|] == Head(s);
    assert block[|Head(s)| + 2..] == Mid(s) + slot.sample;
  }

  // Channel after channel, the sample octets of a block become those of the row.
  lemma {:induction false} BlockRow(s: Stream, slot: Slot, row: seq<(Int32, Quality)>, ch: nat)
    requires |slot.sample| == 8 * s.channels && |row| == s.channels && ch <= |row|
    ensures |Block(s, slot)| == AsduLen(s)
    ensures var at := |Head(s)| + 2 + |Mid(s)|;
            && at + 8 * ch <= AsduLen(s)
            && RowPatched(Block(s, slot), at, row, ch)
               == Block(s, Slot(slot.smpCnt, EncodeSamples(row[..ch]) + slot.sample[8 * ch..]))
  {
    hide Head, Mid, ToBE, PackSample;
    var before := Head(s) + ToBE(slot.smpCnt, 2) + Mid(s);
    if ch == 0 {
      assert EncodeSamples(row[..0]) + slot.sample[0..] == slot.sample;
    } else {
      BlockRow(s, slot, row, ch - 1);
      assert row[..ch][..ch - 1] == row[..ch - 1];
      OneChannel(before, EncodeSamples(row[..ch - 1]), slot.sample, PackSample(row[ch - 1]));
    }
  }

  // Eight octets written right after `done` eat the first eight that were left.
  lemma OneChannel(before: Bytes, done: Bytes, sample: Bytes, octets: Bytes)
    requires |octets| == 8 && |done| + 8 <= |sample|
    ensures Patched(before + (done + sample[|done|..]), |before| + |done|, octets)
         == before + (done + octets + sample[|done| + 8..])
  {
    var left := sample[|done|..];
    assert before + (done + left) == before + done + left + [];
    PatchedInside(before + done, left, [], 0, octets);
    assert left[8..] == sample[|done| + 8..];
  }

  lemma BlockPatched(s: Stream, slot: Slot, count: nat, row: seq<(Int32, Quality)>)
    requires |slot.sample| == 8 * s.channels && |row| == s.channels
    ensures |Block(s, slot)| == AsduLen(s) == |Head(s)| + 2 + |Mid(s)| + 8 * s.channels
    ensures AsduPatched(Block(s, slot), |Head(s)|, |Head(s)| + 2 + |Mid(s)|, count, row)
         == Block(s, Slot(count, EncodeSamples(row)))
  {
    hide Head, Mid, ToBE, PackSample, Patched, RowPatched, EncodeSamples, Block;
    BlockCount(s, slot, count);
    BlockRow(s, Slot(count, slot.sample), row, |row|);
    assert row[..|row|] == row;
    assert EncodeSamples(row) + slot.sample[8 * |row|..] == EncodeSamples(row);
  }

  // Patching inside a window leaves what surrounds it.
  lemma {:induction false} RowPatchedInside(a: Bytes, b: Bytes, c: Bytes, at: nat, row: seq<(Int32, Quality)>, ch: nat)
    requires ch <= |row| && at + 8 * ch <= |b|
    ensures RowPatched(a + b + c, |a| + at, row, ch) == a + RowPatched(b, at, row, ch) + c
  {
    hide Patched, PackSample;
    if ch > 0 {
      RowPatchedInside(a, b, c, at, row, ch - 1);
      PatchedInside(a, RowPatched(b, at, row, ch - 1), c, at + 8 * (ch - 1), PackSample(row[ch - 1]));
    }
  }

  lemma AsduPatchedInside(a: Bytes, b: Bytes, c: Bytes, smpAt: nat, sampleAt: nat, smp: nat,
                          row: seq<(Int32, Quality)>)
    requires smpAt + 2 <= |b| && sampleAt + 8 * |row| <= |b|
    ensures AsduPatched(a + b + c, |a| + smpAt, |a| + sampleAt, smp, row) == a + AsduPatched(b, smpAt, sampleAt, smp, row) + c
  {
    hide Patched, RowPatched;
    PatchedInside(a, b, c, smpAt, ToBE(smp, 2));
    RowPatchedInside(a, Patched(b, smpAt, ToBE(smp, 2)), c, sampleAt, row, |row|);
  }

  // The octets of a frame that carries `slots`.
  function Image(s: Stream, slots: seq<Slot>): Bytes {
    Prefix(s, |slots|) + Blocks(s, slots)
  }

  // What surrounds one ASDU in a frame does not depend on its slot.
  lemma ImageSplit(s: Stream, slots: seq<Slot>, i: nat, slot: Slot) returns (before: Bytes, after: Bytes)
    requires i < |slots| && Fits(s, slots) && |slot.sample| == 8 * s.channels
    ensures |before| == |Prefix(s, |slots|)| + BodyLen(s, i)
    ensures Image(s, slots) == before + Block(s, slots[i]) + after
    ensures Image(s, slots[i := slot]) == before + Block(s, slot) + after
  {
    hide Block, AsduLen, BodyLen, Prefix, Blocks;
    BlocksSplit(s, slots, i);
    BlocksSplit(s, slots[i := slot], i);
    BlocksLen(s, slots[..i]);
    assert slots[i := slot][..i] == slots[..i] && slots[i := slot][i + 1..] == slots[i + 1..];
    before := Prefix(s, |slots|) + Blocks(s, slots[..i]);
    after := Blocks(s, slots[i + 1..]);
  }

  // Patching the windows of one ASDU makes the frame carry its new slot, and the others'
  // old ones.
  lemma ImagePatched(s: Stream, slots: seq<Slot>, i: nat, count: nat, row: seq<(Int32, Quality)>)
    requires i < |slots| && Fits(s, slots) && |row| == s.channels
    ensures CountPlace(s, |slots|, i) + 2 <= |Image(s, slots)|
    ensures SamplePlace(s, |slots|, i) + 8 * |row| <= |Image(s, slots)|
    ensures AsduPatched(Image(s, slots), CountPlace(s, |slots|, i), SamplePlace(s, |slots|, i), count, row)
         == Image(s, slots[i := Slot(count, EncodeSamples(row))])
  {
    hide Block, AsduLen, BodyLen, Prefix, Blocks, Head, Mid, AsduPatched, EncodeSamples, PackSample, ToBE, Image;
    var slot := Slot(count, EncodeSamples(row));
    var before, after := ImageSplit(s, slots, i, slot);
    BlockPatched(s, slots[i], count, row);
    AsduPatchedInside(before, Block(s, slots[i]), after, |Head(s)|, |Head(s)| + 2 + |Mid(s)|, count, row);
  }

  // After `k` ASDUs the frame carries the first `k` numbered slots and the old ones.
  function Halfway(slots: seq<Slot>, target: seq<Slot>, k: nat): (r: seq<Slot>)
    requires |slots| == |target| && k <= |slots|
    ensures |r| == |slots|
  {
    target[..k] + slots[k..]
  }

  lemma ImageWindows(s: Stream, slots: seq<Slot>)
    requires Fits(s, slots)
    ensures Windows(|Image(s, slots)|, CountPlaces(s, |slots|), SamplePlaces(s, |slots|), s.channels)
  {
    hide Image, EncodeSamples, CountPlace, SamplePlace;
    var n := |slots|;
    var row: seq<(Int32, Quality)> := seq(s.channels, _ => (0, 0));
    forall i | 0 <= i < n
      ensures CountPlace(s, n, i) + 2 <= |Image(s, slots)|
      ensures SamplePlace(s, n, i) + 8 * s.channels <= |Image(s, slots)|
    {
      ImagePatched(s, slots, i, 0, row);
    }
  }

  lemma {:induction false} FramePatchedIsImage(s: Stream, slots: seq<Slot>, source: Source, second: int, first: nat,
                                               rate: nat, k: nat)
    requires rate > 0 && Channels(source, s.channels) && Fits(s, slots) && k <= |slots|
    ensures Windows(|Image(s, slots)|, CountPlaces(s, |slots|), SamplePlaces(s, |slots|), s.channels)
    ensures FramePatched(Image(s, slots), CountPlaces(s, |slots|), SamplePlaces(s, |slots|), source, s.channels,
                         second, first, rate, k)
         == Image(s, Halfway(slots, NumberedSlots(source, second, first, rate, |slots|), k))
    decreases k
  {
    hide Image, EncodeSamples, CountPlace, SamplePlace, AsduPatched, Windows, Halfway, NumberedSlots, Numbered, Fits;
    ImageWindows(s, slots);
    var target := NumberedSlots(source, second, first, rate, |slots|);
    if k == 0 {
      HalfwayStarts(slots, target);
    } else {
      FramePatchedIsImage(s, slots, source, second, first, rate, k - 1);
      var at := first + k - 1;
      NumberedFits(s, source, second, first, rate, |slots|);
      HalfwayStep(s, slots, target, k);
      NumberedAt(source, second, first, rate, |slots|, k - 1);
      ImagePatched(s, Halfway(slots, target, k - 1), k - 1, at % rate, source(second + at / rate, at % rate));
    }
  }

  lemma HalfwayStarts(slots: seq<Slot>, target: seq<Slot>)
    requires |slots| == |target|
    ensures Halfway(slots, target, 0) == slots
  {
  }

  lemma HalfwayStep(s: Stream, slots: seq<Slot>, target: seq<Slot>, k: nat)
    requires |slots| == |target| && 1 <= k <= |slots| && Fits(s, slots) && Fits(s, target)
    ensures Halfway(slots, target, k) == Halfway(slots, target, k - 1)[k - 1 := target[k - 1]]
    ensures Fits(s, Halfway(slots, target, k - 1))
  {
  }

  lemma NumberedAt(source: Source, second: int, first: nat, rate: nat, n: nat, i: nat)
    requires rate > 0 && i < n
    ensures var at := first + i;
            NumberedSlots(source, second, first, rate, n)[i]
            == Slot(at % rate, EncodeSamples(source(second + at / rate, at % rate)))
  {
    hide EncodeSamples;
  }

  // Frames of the same number of ASDUs have the same length, so both are accepted.
  lemma SameLength(s: Stream, a: seq<Slot>, b: seq<Slot>)
    requires TypedStream(s) && Fits(s, a) && Fits(s, b) && |a| == |b|
    requires EncodeSvFrame(s, a).Ok?
    ensures EncodeSvFrame(s, b).Ok?
  {
    hide Blocks, BodyLen, ApduHeader, Apdu, SetSimulated, HeaderOctets;
    ApduLayout(s, a);
    ApduLayout(s, b);
  }

  lemma NumberedFits(s: Stream, source: Source, second: int, first: nat, rate: nat, n: nat)
    requires rate > 0 && Channels(source, s.channels)
    ensures Fits(s, NumberedSlots(source, second, first, rate, n))
  {
    hide EncodeSamples;
  }

  // Patching equals encoding: rendering any frame of the stream, in the windows `_locate`
  // found, gives the frame `encode_sv_frame` gives for the numbered ASDUs.
  lemma RenderIsEncode(s: Stream, slots: seq<Slot>, source: Source, second: int, first: nat, rate: nat)
    requires TypedStream(s) && Fits(s, slots) && slots != [] && EncodeSvFrame(s, slots).Ok?
    requires rate > 0 && Channels(source, s.channels)
    ensures var frame := EncodeSvFrame(s, slots).value;
            var places := Locate(frame, |slots|);
            && places.Some? && Windows(|frame|, places.value.0, places.value.1, s.channels)
            && EncodeSvFrame(s, NumberedSlots(source, second, first, rate, |slots|))
               == Ok(FramePatched(frame, places.value.0, places.value.1, source, s.channels, second, first, rate, |slots|))
  {
    hide EncodeSvFrame, Prefix, Blocks, Locate, CountPlaces, SamplePlaces, Windows, FramePatched, NumberedSlots;
    var target := NumberedSlots(source, second, first, rate, |slots|);
    NumberedFits(s, source, second, first, rate, |slots|);
    FrameLayout(s, slots);
    SameLength(s, slots, target);
    FrameLayout(s, target);
    LocateFinds(s, slots);
    FramePatchedIsImage(s, slots, source, second, first, rate, |slots|);
    assert Halfway(slots, target, |slots|) == target;
  }

  // --- `build_template` --------------------------------------------------------------------

  datatype Template = Template(frame: Bytes, counts: seq<int>, samples: seq<int>)

  datatype TemplateError = BadAsduCount | BadFaultWaves | BadPlayback | BadFrame(error: FrameError)

  function ZeroSlots(s: Stream, n: nat): (r: seq<Slot>)
    ensures |r| == n && Fits(s, r)
  {
    seq(n, _ => Slot(0, seq(8 * s.channels, _ => 0)))
  }

  // The template of a stream, whose fault waves and playback must have as many channels.
  // That the layout of the frame is unexpected cannot happen.
  method BuildTemplate(s: Stream, asdus: int, faultWaves: Option<nat>, playback: Option<nat>)
    returns (r: Result<Template, TemplateError>)
    requires TypedStream(s)
    ensures r.Ok? <==> && 1 <= asdus <= 16 && EncodeSvFrame(s, ZeroSlots(s, asdus)).Ok?
                       && faultWaves in [None, Some(s.channels)] && playback in [None, Some(s.channels)]
    ensures r == Err(BadAsduCount) <==> !(1 <= asdus <= 16)
    ensures r.Ok? ==> && r.value.frame == EncodeSvFrame(s, ZeroSlots(s, asdus)).value
                      && Locate(r.value.frame, asdus) == Some((r.value.counts, r.value.samples))
  {
    hide EncodeSvFrame, Locate;
    if !(1 <= asdus <= 16) {
      return Err(BadAsduCount);
    }
    if faultWaves.Some? && faultWaves.value != s.channels {
      return Err(BadFaultWaves);
    }
    if playback.Some? && playback.value != s.channels {
      return Err(BadPlayback);
    }
    var slots := ZeroSlots(s, asdus);
    var frame := EncodeSvFrame(s, slots);
    if frame.Err? {
      return Err(BadFrame(frame.error));
    }
    LocateFinds(s, slots);
    var places := LocateByLoops(frame.value, asdus);
    return Ok(Template(frame.value, places.value.0, places.value.1));
  }
}
