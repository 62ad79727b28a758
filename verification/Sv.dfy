/**
 Sampled Values PDUs (IEC 61850-9-2, IEC 61869-9): `sv.py` as functions, the native
 `sv.rs` as methods that decode in one pass and iterate without allocating.
 */
module Sv {
  import opened Octets
  import opened Ber
  import opened TlvLists
  import opened Data

  const TAG_SAV_PDU: nat := 0x60
  const TAG_NO_ASDU: nat := 0x80
  const TAG_SECURITY: nat := 0xA1
  const TAG_SEQ_ASDU: nat := 0xA2
  const TAG_ASDU: nat := 0x30

  datatype Asdu = Asdu(svId: Bytes, datSet: Option<Bytes>, smpCnt: nat, confRev: nat, refrTm: Option<Utc>,
                       smpSynch: nat, smpRate: Option<nat>, sample: Bytes, smpMod: Option<nat>,
                       gmIdentity: Option<Bytes>)

  datatype SvPdu = SvPdu(asdus: seq<Asdu>, security: Option<Bytes>)

  // --- decoding --------------------------------------------------------------------------

  // Content by tag; the last occurrence wins.
  function ByTag(ts: seq<Tlv>): map<nat, Bytes> {
    if ts == [] then map[] else ByTag(ts[..|ts| - 1])[ts[|ts| - 1].tag := ts[|ts| - 1].value]
  }

  lemma ByTagSnoc(ts: seq<Tlv>, t: Tlv)
    ensures ByTag(ts + [t]) == ByTag(ts)[t.tag := t.value]
  {
    assert (ts + [t])[..|ts|] == ts;
  }

  // Field [n] of an ASDU.
  function FieldN(f: map<nat, Bytes>, n: nat): Option<Bytes> {
    if 0x80 + n in f then Some(f[0x80 + n]) else None
  }

  // An absent field, or one of exactly `size` octets.
  predicate FixedOrAbsent(content: Option<Bytes>, size: nat) {
    content.Some? ==> |content.value| == size
  }

  function Number(content: Option<Bytes>): Option<nat> {
    if content.None? then None else Some(FromBE(content.value))
  }

  // The ASDU of the contents of its fields [0] to [9]; None when a mandatory one is missing
  // or one has the wrong size.
  function AsduOf(f: seq<Option<Bytes>>): Option<Asdu>
    requires |f| == 10
  {
    if f[0].None? || f[2].None? || f[3].None? || f[5].None? || f[7].None? then None
    else if f[4].Some? && DecodeUtc(f[4].value).None? then None
    else if !(FixedOrAbsent(f[2], 2) && FixedOrAbsent(f[3], 4) && FixedOrAbsent(f[5], 1)
              && FixedOrAbsent(f[6], 2) && FixedOrAbsent(f[8], 2)) then None
    else Some(Asdu(f[0].value, f[1], FromBE(f[2].value), FromBE(f[3].value),
                   if f[4].None? then None else DecodeUtc(f[4].value), FromBE(f[5].value),
                   Number(f[6]), f[7].value, Number(f[8]), f[9]))
  }

  function Slots(f: map<nat, Bytes>): (s: seq<Option<Bytes>>)
    ensures |s| == 10
  {
    seq(10, n requires 0 <= n => FieldN(f, n))
  }

  function DecodeAsdu(content: Bytes): Option<Asdu> {
    match Tlvs(content)
    case Err(_) => None
    case Ok(ts) => AsduOf(Slots(ByTag(ts)))
  }

  // The ASDUs of the items of one seqASDU, all of tag 0x30.
  function DecodeItems(ts: seq<Tlv>): Option<seq<Asdu>> {
    if ts == [] then Some([])
    else
      var (init, last) := (DecodeItems(ts[..|ts| - 1]), ts[|ts| - 1]);
      if init.None? || last.tag != TAG_ASDU || DecodeAsdu(last.value).None? then None
      else Some(init.value + [DecodeAsdu(last.value).value])
  }

  function DecodeSeq(content: Bytes): Option<seq<Asdu>> {
    match Tlvs(content)
    case Err(_) => None
    case Ok(ts) => DecodeItems(ts)
  }

  // What the fields of a SavPdu met so far say.
  datatype Progress = Progress(noAsdu: Option<Bytes>, security: Option<Bytes>, asdus: seq<Asdu>)

  function Absorb(ts: seq<Tlv>): Option<Progress> {
    if ts == [] then Some(Progress(None, None, []))
    else
      var (init, last) := (Absorb(ts[..|ts| - 1]), ts[|ts| - 1]);
      if init.None? then None else AbsorbOne(init.value, last.tag, last.value)
  }

  function AbsorbOne(p: Progress, tag: nat, value: Bytes): Option<Progress> {
    if tag == TAG_NO_ASDU then
      if value == [] then None else Some(p.(noAsdu := Some(value)))
    else if tag == TAG_SECURITY then Some(p.(security := Some(value)))
    else if tag == TAG_SEQ_ASDU then
      if DecodeSeq(value).None? then None else Some(p.(asdus := p.asdus + DecodeSeq(value).value))
    else Some(p)
  }

  // The PDU of what its fields say: noASDU must be there and count the ASDUs.
  function Conclude(p: Progress): Option<SvPdu> {
    if p.noAsdu.None? || FromBE(p.noAsdu.value) != |p.asdus| then None else Some(SvPdu(p.asdus, p.security))
  }

  function SavTlvs(apdu: Bytes): Option<seq<Tlv>> {
    match TlvOf(apdu)
    case Err(_) => None
    case Ok(outer) =>
      if outer.tag != TAG_SAV_PDU || Tlvs(outer.value).Err? then None else Some(Tlvs(outer.value).value)
  }

  // Octets after the PDU are ignored.
  function DecodeSvPdu(apdu: Bytes): Option<SvPdu> {
    match SavTlvs(apdu)
    case None => None
    case Some(ts) => if Absorb(ts).None? then None else Conclude(Absorb(ts).value)
  }

  // --- encoding --------------------------------------------------------------------------

  function Optional(tag: nat, content: Option<Bytes>): seq<Field> {
    if content.Some? then [(tag, content.value)] else []
  }

  function Sized(v: Option<nat>, size: nat): Option<Bytes> {
    if v.Some? then Some(ToBE(v.value, size)) else None
  }

  // The content of each numbered field of an ASDU.
  function AsduSlots(a: Asdu): (s: seq<Option<Bytes>>)
    ensures |s| == 10
  {
    [Some(a.svId), a.datSet, Some(ToBE(a.smpCnt, 2)), Some(ToBE(a.confRev, 4)),
     if a.refrTm.Some? then Some(EncodeUtc(a.refrTm.value)) else None, Some(ToBE(a.smpSynch, 1)),
     Sized(a.smpRate, 2), Some(a.sample), Sized(a.smpMod, 2), a.gmIdentity]
  }

  // The fields present from number `n` on, in order.
  function FieldsFrom(s: seq<Option<Bytes>>, n: nat): seq<Field>
    requires n <= |s| == 10
    decreases |s| - n
  {
    if n == |s| then [] else Optional(0x80 + n, s[n]) + FieldsFrom(s, n + 1)
  }

  function AsduFields(a: Asdu): seq<Field> {
    FieldsFrom(AsduSlots(a), 0)
  }

  function EncodeAsdu(a: Asdu): Bytes {
    EncodeTlv(TAG_ASDU, EncodeFields(AsduFields(a)))
  }

  function EncodeAsdus(asdus: seq<Asdu>): Bytes {
    if asdus == [] then [] else EncodeAsdu(asdus[0]) + EncodeAsdus(asdus[1..])
  }

  function PduFields(p: SvPdu): seq<Field> {
    [(TAG_NO_ASDU, EncodeInteger(|p.asdus|))] + Optional(TAG_SECURITY, p.security)
    + [(TAG_SEQ_ASDU, EncodeAsdus(p.asdus))]
  }

  function EncodeSvPdu(p: SvPdu): Bytes {
    EncodeTlv(TAG_SAV_PDU, EncodeFields(PduFields(p)))
  }

  // --- print then parse ------------------------------------------------------------------

  // Values that fit their fields; the encoder refuses the others (to_bytes overflows).
  predicate TypedAsdu(a: Asdu) {
    && a.smpCnt < 0x1_0000 && a.confRev < TWO_32 && a.smpSynch < 256
    && (a.smpRate.Some? ==> a.smpRate.value < 0x1_0000) && (a.smpMod.Some? ==> a.smpMod.value < 0x1_0000)
    && (a.refrTm.Some? ==> TypedUtc(a.refrTm.value) && a.refrTm.value.fraction < 0x100_0000)
  }

  lemma FieldAfter(f: map<nat, Bytes>, n: nat, value: Bytes, k: nat)
    ensures FieldN(f[0x80 + n := value], k) == if k == n then Some(value) else FieldN(f, k)
  {
  }

  // TLVs of tags in [0x80 + n, 0x8A) and in increasing order hold each slot once.
  lemma {:induction false} SlotsFound(s: seq<Option<Bytes>>, n: nat, before: seq<Tlv>, ts: seq<Tlv>)
    requires n <= |s| == 10 && ReadBack(FieldsFrom(s, n), ts)
    requires forall k :: 0 <= k < 10 ==> FieldN(ByTag(before), k) == if k < n then s[k] else None
    ensures forall k :: 0 <= k < 10 ==> FieldN(ByTag(before + ts), k) == s[k]
    decreases |s| - n
  {
    hide ByTag, FieldN;
    if n == |s| {
      assert before + ts == before;
    } else if s[n].None? {
      assert FieldsFrom(s, n) == FieldsFrom(s, n + 1);
      SlotsFound(s, n + 1, before, ts);
    } else {
      var fs := FieldsFrom(s, n);
      assert fs[0] == (0x80 + n, s[n].value) && fs[1..] == FieldsFrom(s, n + 1);
      ByTagSnoc(before, ts[0]);
      assert before + ts == before + [ts[0]] + ts[1..];
      forall k | 0 <= k < 10
        ensures FieldN(ByTag(before + [ts[0]]), k) == if k < n + 1 then s[k] else None
      {
        FieldAfter(ByTag(before), n, ts[0].value, k);
      }
      SlotsFound(s, n + 1, before + [ts[0]], ts[1..]);
    }
  }

  lemma {:induction false} SlotTagsAreShort(s: seq<Option<Bytes>>, n: nat)
    requires n <= |s| == 10
    ensures ShortTags(FieldsFrom(s, n))
    decreases |s| - n
  {
    if n < |s| {
      SlotTagsAreShort(s, n + 1);
    }
  }

  lemma AsduOfSlots(a: Asdu)
    requires TypedAsdu(a)
    ensures AsduOf(AsduSlots(a)) == Some(a)
  {
    hide ToBE, FromBE, EncodeUtc, DecodeUtc;
    Powers();
    FromToBE(a.smpCnt, 2);
    FromToBE(a.confRev, 4);
    FromToBE(a.smpSynch, 1);
    if a.smpRate.Some? {
      FromToBE(a.smpRate.value, 2);
    }
    if a.smpMod.Some? {
      FromToBE(a.smpMod.value, 2);
    }
    if a.refrTm.Some? {
      UtcRoundTrip(a.refrTm.value);
    }
  }

  lemma AsduRoundTrip(a: Asdu)
    requires TypedAsdu(a) && |EncodeFields(AsduFields(a))| < TWO_64
    ensures DecodeAsdu(EncodeFields(AsduFields(a))) == Some(a)
  {
    hide AsduSlots, Tlvs, EncodeFields, ByTag, AsduOf, FieldsFrom;
    var s := AsduSlots(a);
    assert AsduFields(a) == FieldsFrom(s, 0);
    SlotTagsAreShort(s, 0);
    FieldsRoundTrip(AsduFields(a));
    var ts := Tlvs(EncodeFields(AsduFields(a))).value;
    NoFields();
    SlotsFound(s, 0, [], ts);
    assert [] + ts == ts;
    assert Slots(ByTag(ts)) == s;
    AsduOfSlots(a);
  }

  lemma NoFields()
    ensures forall k :: 0 <= k < 10 ==> FieldN(ByTag([]), k) == None
  {
  }

  lemma {:induction false} AsdusRoundTrip(asdus: seq<Asdu>)
    requires (forall a <- asdus :: TypedAsdu(a)) && |EncodeAsdus(asdus)| < TWO_64
    ensures Tlvs(EncodeAsdus(asdus)).Ok?
    ensures var ts := Tlvs(EncodeAsdus(asdus)).value;
            |ts| == |asdus| && forall k :: 0 <= k < |ts| ==> ts[k].tag == TAG_ASDU && DecodeAsdu(ts[k].value) == Some(asdus[k])
  {
    hide TlvOf, EncodeTlv, EncodeFields, DecodeAsdu, AsduFields;
    if asdus != [] {
      var head, rest := EncodeAsdu(asdus[0]), EncodeAsdus(asdus[1..]);
      var content := EncodeFields(AsduFields(asdus[0]));
      ShortTag(TAG_ASDU);
      ContentFits(TAG_ASDU, content);
      TlvRoundTrip(TAG_ASDU, content, rest);
      AsduRoundTrip(asdus[0]);
      AsdusRoundTrip(asdus[1..]);
      assert (head + rest)[|head|..] == rest;
    }
  }

  lemma {:induction false} ItemsRoundTrip(ts: seq<Tlv>, asdus: seq<Asdu>)
    requires |ts| == |asdus|
    requires forall k :: 0 <= k < |ts| ==> ts[k].tag == TAG_ASDU && DecodeAsdu(ts[k].value) == Some(asdus[k])
    ensures DecodeItems(ts) == Some(asdus)
  {
    hide DecodeAsdu;
    if ts != [] {
      var n := |ts| - 1;
      ItemsRoundTrip(ts[..n], asdus[..n]);
      assert asdus == asdus[..n] + [asdus[n]];
    }
  }

  // Every PDU of typed ASDUs is decoded as it was encoded, whatever octets follow it.
  lemma SvRoundTrip(p: SvPdu, padding: Bytes)
    requires forall a <- p.asdus :: TypedAsdu(a)
    requires |EncodeSvPdu(p)| < TWO_64
    ensures DecodeSvPdu(EncodeSvPdu(p) + padding) == Some(p)
  {
    hide EncodeTlv, TlvOf, Tlvs, EncodeFields, Absorb, EncodeAsdus, EncodeInteger;
    var fs := PduFields(p);
    var content := EncodeFields(fs);
    ContentFits(TAG_SAV_PDU, content);
    ShortTag(TAG_SAV_PDU);
    TlvRoundTrip(TAG_SAV_PDU, content, padding);
    FieldsRoundTrip(fs);
    LastFieldFits(fs);
    AsdusRoundTrip(p.asdus);
    ItemsRoundTrip(Tlvs(EncodeAsdus(p.asdus)).value, p.asdus);
    PduAbsorbed(p, Tlvs(content).value);
    UnsignedRoundTrip(|p.asdus|);
  }

  lemma PduAbsorbed(p: SvPdu, ts: seq<Tlv>)
    requires ReadBack(PduFields(p), ts)
    requires DecodeSeq(EncodeAsdus(p.asdus)) == Some(p.asdus)
    ensures Absorb(ts) == Some(Progress(Some(EncodeInteger(|p.asdus|)), p.security, p.asdus))
  {
    hide EncodeAsdus, EncodeInteger, DecodeSeq;
    assert [] + p.asdus == p.asdus;
    assert Absorb(ts[..0]) == Some(Progress(None, None, []));
    assert ts[..1][..0] == ts[..0];
    assert Absorb(ts[..1]) == Some(Progress(Some(EncodeInteger(|p.asdus|)), None, []));
    if p.security.Some? {
      assert ts[..2][..1] == ts[..1];
      assert Absorb(ts[..2]) == Some(Progress(Some(EncodeInteger(|p.asdus|)), p.security, []));
      assert ts[..3] == ts && ts[..3][..2] == ts[..2];
    } else {
      assert ts[..2] == ts && ts[..2][..1] == ts[..1];
    }
  }

  // --- the native decoder ----------------------------------------------------------------

  datatype SvError = InBer(ber: BerError) | UnexpectedTag | MissingField | BadSize | MissingNoAsdu | NoAsduMismatch

  type SlotArray = s: seq<Option<Bytes>> | |s| == 10 witness seq(10, _ => None)

  // The slot array follows the map of the TLVs met, whatever a saturated tag hides.
  lemma SlotStep(s: SlotArray, f: map<nat, Bytes>, tag: nat, value: Bytes)
    requires s == Slots(f)
    ensures Slots(f[tag := value]) == StoreSlot(s, NarrowTag(tag), value)
  {
  }

  // Context tags [0] to [9]; the last occurrence wins, other tags are skipped.
  method NativeScanAsdu(content: Bytes) returns (r: Result<SlotArray, BerError>)
    requires |content| < TWO_63
    ensures r.Ok? <==> Tlvs(content).Ok?
    ensures r.Ok? ==> r.value == Slots(ByTag(Tlvs(content).value))
  {
    SlotsStart(content);
    var slots: SlotArray := seq(10, _ => None);
    var at := 0;
    ghost var done: seq<Tlv> := [];
    while at < |content|
      invariant SlotsRead(content, done, at, slots)
    {
      var tlv := NativeDecodeTlv(content, at);
      done := SlotsStep(content, done, at, slots, tlv);
      if tlv.Err? {
        return Err(tlv.error);
      }
      slots := StoreSlot(slots, tlv.value.tag, tlv.value.value);
      at := tlv.value.end;
    }
    SlotsEnd(content, done, slots);
    return Ok(slots);
  }

  function StoreSlot(slots: SlotArray, tag: nat, value: Bytes): SlotArray {
    if 0x80 <= tag < 0x8A then slots[tag - 0x80 := Some(value)] else slots
  }

  // `done` are the TLVs before `at`, whose fields `slots` holds.
  ghost predicate SlotsRead(content: Bytes, done: seq<Tlv>, at: nat, slots: SlotArray) {
    at <= |content| && Scanned(content, done, at) && slots == Slots(ByTag(done))
  }

  lemma SlotsStart(content: Bytes)
    ensures SlotsRead(content, [], 0, seq(10, _ => None))
  {
    ScannedStart(content);
  }

  lemma SlotsEnd(content: Bytes, done: seq<Tlv>, slots: SlotArray)
    requires SlotsRead(content, done, |content|, slots)
    ensures Tlvs(content) == Ok(done) && slots == Slots(ByTag(done))
  {
    ScannedEnd(content, done);
  }

  lemma SlotsStep(content: Bytes, done: seq<Tlv>, at: nat, slots: SlotArray, read: Result<Tlv, BerError>)
    returns (more: seq<Tlv>)
    requires at < |content| && SlotsRead(content, done, at, slots)
    requires ReadAt(content, at, read)
    ensures read.Err? ==> Tlvs(content).Err?
    ensures read.Ok? ==> SlotsRead(content, more, read.value.end, StoreSlot(slots, read.value.tag, read.value.value))
  {
    hide TlvOf, Tlvs, Scanned, ByTag, Slots, StoreSlot, NarrowTag;
    if read.Err? {
      ScannedFailure(content, done, at);
      return done;
    }
    var t := TlvOf(content[at..]).value;
    more := done + [t];
    ScannedStep(content, done, at);
    ByTagSnoc(done, t);
    SlotStep(slots, ByTag(done), t.tag, t.value);
  }

  // A field of a fixed size, folded into an integer.
  method NativeFixed(content: Bytes, size: nat) returns (r: Result<nat, SvError>)
    requires size <= 4
    ensures r == if |content| == size then Ok(FromBE(content)) else Err(BadSize)
  {
    if |content| != size {
      return Err(BadSize);
    }
    var v: nat := 0;
    for i := 0 to |content|
      invariant v == FromBE(content[..i])
    {
      assert content[..i + 1][..i] == content[..i];
      v := v * 256 + content[i];
    }
    assert content[..|content|] == content;
    return Ok(v);
  }

  method NativeDecodeAsdu(content: Bytes) returns (r: Result<Asdu, SvError>)
    requires |content| < TWO_63
    ensures r.Ok? <==> DecodeAsdu(content).Some?
    ensures r.Ok? ==> r.value == DecodeAsdu(content).value
  {
    hide Tlvs, ByTag, Slots;
    var scanned := NativeScanAsdu(content);
    if scanned.Err? {
      return Err(InBer(scanned.error));
    }
    r := NativeAsduOf(scanned.value);
  }

  method NativeAsduOf(f: SlotArray) returns (r: Result<Asdu, SvError>)
    ensures r.Ok? <==> AsduOf(f).Some?
    ensures r.Ok? ==> r.value == AsduOf(f).value
  {
    hide FromBE, DecodeUtc;
    if f[0].None? || f[2].None? || f[3].None? || f[5].None? || f[7].None? {
      return Err(MissingField);
    }
    var refrTm: Option<Utc> := None;
    if f[4].Some? {
      refrTm := DecodeUtc(f[4].value);
      if refrTm.None? {
        return Err(InBer(Truncated));
      }
    }
    var cnt := NativeFixed(f[2].value, 2);
    if cnt.Err? { return Err(cnt.error); }
    var rev := NativeFixed(f[3].value, 4);
    if rev.Err? { return Err(rev.error); }
    var synch := NativeFixed(f[5].value, 1);
    if synch.Err? { return Err(synch.error); }
    var rate := NativeOptionalFixed(f[6]);
    if rate.Err? { return Err(rate.error); }
    var mod := NativeOptionalFixed(f[8]);
    if mod.Err? { return Err(mod.error); }
    return Ok(Asdu(f[0].value, f[1], cnt.value, rev.value, refrTm, synch.value, rate.value, f[7].value,
                   mod.value, f[9]));
  }

  method NativeOptionalFixed(content: Option<Bytes>) returns (r: Result<Option<nat>, SvError>)
    ensures r == if FixedOrAbsent(content, 2) then Ok(Number(content)) else Err(BadSize)
  {
    if content.None? {
      return Ok(None);
    }
    var v := NativeFixed(content.value, 2);
    return if v.Err? then Err(v.error) else Ok(Some(v.value));
  }

  // The items of one seqASDU, each handed over as it is decoded.
  method NativeDecodeSeq(content: Bytes) returns (r: Result<seq<Asdu>, SvError>)
    requires |content| < TWO_63
    ensures r.Ok? <==> DecodeSeq(content).Some?
    ensures r.Ok? ==> r.value == DecodeSeq(content).value
  {
    ItemsStart(content);
    var each: seq<Asdu> := [];
    var at := 0;
    ghost var done: seq<Tlv> := [];
    while at < |content|
      invariant ItemsRead(content, done, at, each)
    {
      var tlv := NativeDecodeTlv(content, at);
      done := ItemsStep(content, done, at, each, tlv);
      if tlv.Err? {
        return Err(InBer(tlv.error));
      }
      if tlv.value.tag != TAG_ASDU {
        return Err(UnexpectedTag);
      }
      var asdu := NativeDecodeAsdu(tlv.value.value);
      if asdu.Err? {
        return Err(asdu.error);
      }
      each := each + [asdu.value];
      at := tlv.value.end;
    }
    ItemsEnd(content, done, each);
    return Ok(each);
  }

  // `done` are the items before `at`, decoded as `each`.
  ghost predicate ItemsRead(content: Bytes, done: seq<Tlv>, at: nat, each: seq<Asdu>) {
    at <= |content| && Scanned(content, done, at) && DecodeItems(done) == Some(each)
  }

  lemma ItemsStart(content: Bytes)
    ensures ItemsRead(content, [], 0, [])
  {
    ScannedStart(content);
  }

  lemma ItemsEnd(content: Bytes, done: seq<Tlv>, each: seq<Asdu>)
    requires ItemsRead(content, done, |content|, each)
    ensures DecodeSeq(content) == Some(each)
  {
    ScannedEnd(content, done);
  }

  // The item at hand: refused, the whole sequence is; decoded, it comes next.
  lemma ItemsStep(content: Bytes, done: seq<Tlv>, at: nat, each: seq<Asdu>, read: Result<Tlv, BerError>)
    returns (more: seq<Tlv>)
    requires at < |content| && ItemsRead(content, done, at, each)
    requires ReadAt(content, at, read)
    ensures read.Err? ==> DecodeSeq(content).None?
    ensures read.Ok? ==>
              var asdu := DecodeAsdu(read.value.value);
              && (read.value.tag != TAG_ASDU || asdu.None? ==> DecodeSeq(content).None?)
              && (read.value.tag == TAG_ASDU && asdu.Some? ==>
                    ItemsRead(content, more, read.value.end, each + [asdu.value]))
  {
    hide TlvOf, Tlvs, DecodeAsdu, Scanned;
    if read.Err? {
      ScannedFailure(content, done, at);
      return done;
    }
    var t := TlvOf(content[at..]).value;
    more := done + [t];
    ScannedStep(content, done, at);
    assert more[..|done|] == done;
    if Tlvs(content).Ok? {
      var ts := Tlvs(content).value;
      var next := NextScanned(content, done, at);
      assert ts[..|done| + 1] == more;
      if DecodeItems(more).None? {
        ItemsStayRefused(ts, |done| + 1);
      }
    }
  }

  lemma {:induction false} ItemsStayRefused(ts: seq<Tlv>, n: nat)
    requires n <= |ts| && DecodeItems(ts[..n]).None?
    ensures DecodeItems(ts).None?
    decreases |ts| - n
  {
    if n < |ts| {
      assert ts[..n + 1][..n] == ts[..n];
      ItemsStayRefused(ts, n + 1);
    } else {
      assert ts[..n] == ts;
    }
  }

  datatype Checked = Checked(security: Option<Bytes>, count: nat, content: Bytes)

  // One pass over the PDU; `each` are the ASDUs handed over. Accepts exactly what Python
  // accepts, with the same ASDUs; noASDU is compared as a 64-bit integer.
  method NativeDecodePduWith(apdu: Bytes) returns (r: Result<Checked, SvError>, each: seq<Asdu>)
    requires |apdu| < TWO_63
    ensures r.Ok? <==> DecodeSvPdu(apdu).Some?
    ensures r.Ok? ==> each == DecodeSvPdu(apdu).value.asdus
                      && r.value == Checked(DecodeSvPdu(apdu).value.security, |each|, TlvOf(apdu).value.value)
  {
    each := [];
    assert Suffix(apdu, 0) == apdu;
    var outer := NativeDecodeTlv(apdu, 0);
    if outer.Err? {
      return Err(InBer(outer.error)), [];
    }
    if outer.value.tag != TAG_SAV_PDU {
      return Err(UnexpectedTag), [];
    }
    var scanned := NativeScanPdu(outer.value.value);
    if scanned.Err? {
      return Err(scanned.error), [];
    }
    var p := scanned.value;
    each := p.asdus;
    if p.noAsdu.None? {
      return Err(MissingNoAsdu), each;
    }
    var declared := NativeDecodeUnsigned(p.noAsdu.value);
    if declared.Err? || declared.value != |each| {
      TotalWithin(outer.value.value);
      AsdusWithin(Tlvs(outer.value.value).value);
      return Err(NoAsduMismatch), each;
    }
    return Ok(Checked(p.security, |each|, outer.value.value)), each;
  }

  // Octets of the contents of TLVs: an upper bound of the ASDUs they can hold.
  ghost function Total(ts: seq<Tlv>): nat {
    if ts == [] then 0 else Total(ts[..|ts| - 1]) + |ts[|ts| - 1].value|
  }

  lemma {:induction false} TotalConcat(t: Tlv, ts: seq<Tlv>)
    ensures Total([t] + ts) == |t.value| + Total(ts)
  {
    if ts == [] {
      assert [t] + ts == [t] && [t][..0] == [];
    } else {
      assert ([t] + ts)[..|ts|] == [t] + ts[..|ts| - 1];
      TotalConcat(t, ts[..|ts| - 1]);
    }
  }

  lemma {:induction false} TotalWithin(s: Bytes)
    requires Tlvs(s).Ok?
    ensures Total(Tlvs(s).value) + |Tlvs(s).value| <= |s|
    decreases |s|
  {
    hide TlvOf;
    if s != [] {
      var t := TlvOf(s).value;
      TotalWithin(s[t.end..]);
      TotalConcat(t, Tlvs(s[t.end..]).value);
    }
  }

  lemma {:induction false} ItemsCount(ts: seq<Tlv>)
    requires DecodeItems(ts).Some?
    ensures |DecodeItems(ts).value| == |ts|
  {
    if ts != [] {
      ItemsCount(ts[..|ts| - 1]);
    }
  }

  lemma {:induction false} AsdusWithin(ts: seq<Tlv>)
    requires Absorb(ts).Some?
    ensures |Absorb(ts).value.asdus| <= Total(ts)
  {
    hide Tlvs, DecodeItems;
    if ts != [] {
      AsdusWithin(ts[..|ts| - 1]);
      var last := ts[|ts| - 1].value;
      if DecodeSeq(last).Some? {
        ItemsCount(Tlvs(last).value);
        TotalWithin(last);
      }
    }
  }

  method NativeScanPdu(content: Bytes) returns (r: Result<Progress, SvError>)
    requires |content| < TWO_63
    ensures r.Ok? <==> Tlvs(content).Ok? && Absorb(Tlvs(content).value).Some?
    ensures r.Ok? ==> Some(r.value) == Absorb(Tlvs(content).value)
    ensures r.Ok? && r.value.noAsdu.Some? ==> r.value.noAsdu.value != []
  {
    AbsorbStart(content);
    var p := Progress(None, None, []);
    var at := 0;
    ghost var done: seq<Tlv> := [];
    while at < |content|
      invariant Absorbed(content, done, at, p)
    {
      var tlv := NativeDecodeTlv(content, at);
      done := AbsorbStep(content, done, at, p, tlv);
      if tlv.Err? {
        return Err(InBer(tlv.error));
      }
      var next := NativeAbsorbOne(p, tlv.value.tag, tlv.value.value);
      if next.Err? {
        return Err(next.error);
      }
      p := next.value;
      at := tlv.value.end;
    }
    AbsorbEnd(content, done, p);
    return Ok(p);
  }

  // `done` are the fields before `at`, which say `p`.
  ghost predicate Absorbed(content: Bytes, done: seq<Tlv>, at: nat, p: Progress) {
    && at <= |content| && Scanned(content, done, at) && Absorb(done) == Some(p)
    && (p.noAsdu.Some? ==> p.noAsdu.value != [])
  }

  lemma AbsorbStart(content: Bytes)
    ensures Absorbed(content, [], 0, Progress(None, None, []))
  {
    ScannedStart(content);
  }

  lemma AbsorbEnd(content: Bytes, done: seq<Tlv>, p: Progress)
    requires Absorbed(content, done, |content|, p)
    ensures Tlvs(content) == Ok(done) && Absorb(done) == Some(p) && (p.noAsdu.Some? ==> p.noAsdu.value != [])
  {
    ScannedEnd(content, done);
  }

  method NativeAbsorbOne(p: Progress, tag: nat, value: Bytes) returns (r: Result<Progress, SvError>)
    requires |value| < TWO_63
    ensures r.Ok? <==> AbsorbOne(p, tag, value).Some?
    ensures r.Ok? ==> Some(r.value) == AbsorbOne(p, tag, value)
  {
    if tag == TAG_NO_ASDU {
      return if value == [] then Err(InBer(EmptyInteger)) else Ok(p.(noAsdu := Some(value)));
    }
    if tag == TAG_SECURITY {
      return Ok(p.(security := Some(value)));
    }
    if tag == TAG_SEQ_ASDU {
      var items := NativeDecodeSeq(value);
      return if items.Err? then Err(items.error) else Ok(p.(asdus := p.asdus + items.value));
    }
    return Ok(p);
  }

  // No field the decoder looks for has a tag above 32 bits; an empty noASDU is refused.
  lemma AbsorbOneField(p: Progress, tag: nat, value: Bytes)
    ensures AbsorbOne(p, NarrowTag(tag), value) == AbsorbOne(p, tag, value)
    ensures var next := AbsorbOne(p, tag, value);
            (p.noAsdu.Some? ==> p.noAsdu.value != []) && next.Some? && next.value.noAsdu.Some?
            ==> next.value.noAsdu.value != []
  {
    hide DecodeSeq;
  }

  lemma AbsorbStep(content: Bytes, done: seq<Tlv>, at: nat, p: Progress, read: Result<Tlv, BerError>)
    returns (more: seq<Tlv>)
    requires at < |content| && Absorbed(content, done, at, p)
    requires ReadAt(content, at, read)
    ensures read.Err? ==> Tlvs(content).Err?
    ensures read.Ok? ==>
              var next := AbsorbOne(p, read.value.tag, read.value.value);
              && (next.None? ==> Tlvs(content).Err? || Absorb(Tlvs(content).value).None?)
              && (next.Some? ==> Absorbed(content, more, read.value.end, next.value))
  {
    hide TlvOf, Tlvs, AbsorbOne, Scanned, NarrowTag;
    if read.Err? {
      ScannedFailure(content, done, at);
      return done;
    }
    var t := TlvOf(content[at..]).value;
    more := done + [t];
    ScannedStep(content, done, at);
    assert more[..|done|] == done;
    AbsorbOneField(p, t.tag, t.value);
    if Tlvs(content).Ok? {
      var ts := Tlvs(content).value;
      var next := NextScanned(content, done, at);
      assert ts[..|done| + 1] == more;
      if Absorb(more).None? {
        AbsorbStaysRefused(ts, |done| + 1);
      }
    }
  }

  lemma {:induction false} AbsorbStaysRefused(ts: seq<Tlv>, n: nat)
    requires n <= |ts| && Absorb(ts[..n]).None?
    ensures Absorb(ts).None?
    decreases |ts| - n
  {
    if n < |ts| {
      assert ts[..n + 1][..n] == ts[..n];
      AbsorbStaysRefused(ts, n + 1);
    } else {
      assert ts[..n] == ts;
    }
  }
}
