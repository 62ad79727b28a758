/**
 GOOSE messages (IEC 61850-8-1, clause A.3, `IECGoosePdu`) and their Ethernet frames.

 The functions are `goose.py`; the methods are the native `goose.rs`, which measures
 before it writes and fills a field array as it reads.
 */
module Goose {
  import opened Octets
  import opened Ber
  import opened TlvLists
  import opened Data
  import opened FlatData
  import opened FlatReader
  import opened Ethernet

  const TAG_GOOSE_PDU: nat := 0x61
  const TAG_ALL_DATA: nat := 0xAB

  const GOCB_REF: nat := 0
  const TAL: nat := 1
  const DAT_SET: nat := 2
  const GO_ID: nat := 3
  const T: nat := 4
  const ST_NUM: nat := 5
  const SQ_NUM: nat := 6
  const SIMULATION: nat := 7
  const CONF_REV: nat := 8
  const NDS_COM: nat := 9
  const NUM_ENTRIES: nat := 10
  const ALL_DATA: nat := 11

  // Everything but allData; strings are the octets on the wire.
  datatype Header = Header(gocbRef: Bytes, tal: nat, datSet: Bytes, goId: Option<Bytes>, t: Utc, stNum: nat,
                           sqNum: nat, simulation: bool, confRev: nat, ndsCom: bool, entries: nat)

  datatype Pdu = Pdu(header: Header, allData: seq<Value>)

  // --- encoding --------------------------------------------------------------------------

  function EncodeBoolean(b: bool): Bytes {
    [if b then 0xFF else 0x00]
  }

  // The header fields in the order of the SEQUENCE.
  function HeaderFields(h: Header): seq<Field> {
    [(0x80, h.gocbRef), (0x81, EncodeInteger(h.tal)), (0x82, h.datSet)]
    + (if h.goId.Some? then [(0x83, h.goId.value)] else [])
    + [(0x84, EncodeUtc(h.t)), (0x85, EncodeInteger(h.stNum)), (0x86, EncodeInteger(h.sqNum)),
       (0x87, EncodeBoolean(h.simulation)), (0x88, EncodeInteger(h.confRev)), (0x89, EncodeBoolean(h.ndsCom)),
       (0x8A, EncodeInteger(h.entries))]
  }

  function FieldsOf(p: Pdu): seq<Field> {
    HeaderFields(p.header) + [(TAG_ALL_DATA, EncodeSequence(p.allData))]
  }

  function EncodePdu(p: Pdu): Bytes {
    EncodeTlv(TAG_GOOSE_PDU, EncodeFields(FieldsOf(p)))
  }

  // --- decoding --------------------------------------------------------------------------

  // The number of a tag, without its class and form bits.
  function TagNumber(tag: nat): nat {
    var octets := EncodeTag(tag);
    if octets[0] % 32 != 31 then octets[0] % 32 else SevenBits(octets[1..])
  }

  function SevenBits(octets: Bytes): nat {
    if octets == [] then 0 else 128 * SevenBits(octets[..|octets| - 1]) + octets[|octets| - 1] % 128
  }

  // Content by tag number; the last occurrence of a number wins.
  function FieldMap(ts: seq<Tlv>): map<nat, Bytes> {
    if ts == [] then map[]
    else FieldMap(ts[..|ts| - 1])[TagNumber(ts[|ts| - 1].tag) := ts[|ts| - 1].value]
  }

  lemma FieldMapSnoc(ts: seq<Tlv>, t: Tlv)
    ensures FieldMap(ts + [t]) == FieldMap(ts)[TagNumber(t.tag) := t.value]
  {
    assert (ts + [t])[..|ts|] == ts;
  }

  lemma {:induction false} LastOccurrenceWins(ts: seq<Tlv>, n: nat)
    ensures n in FieldMap(ts) <==> exists k :: 0 <= k < |ts| && TagNumber(ts[k].tag) == n
    ensures forall k :: 0 <= k < |ts| && TagNumber(ts[k].tag) == n
                        && (forall j :: k < j < |ts| ==> TagNumber(ts[j].tag) != n)
                        ==> n in FieldMap(ts) && FieldMap(ts)[n] == ts[k].value
  {
    if ts != [] {
      var init, last := ts[..|ts| - 1], ts[|ts| - 1];
      LastOccurrenceWins(init, n);
      if TagNumber(last.tag) != n {
        forall k | 0 <= k < |ts| && TagNumber(ts[k].tag) == n
          ensures k < |init| && init[k] == ts[k]
        {
        }
        if n in FieldMap(init) {
          var k :| 0 <= k < |init| && TagNumber(init[k].tag) == n;
          assert ts[k] == init[k];
        }
      }
    }
  }

  // A header counter: read leniently, refused when empty or above 64 bits.
  function Counter(content: Bytes): Option<nat> {
    if content == [] || FromBE(content) >= TWO_64 then None else Some(FromBE(content))
  }

  function LenientBool(content: Option<Bytes>): bool {
    content.Some? && content.value != [] && content.value[0] != 0
  }

  function Lookup(fields: map<nat, Bytes>, n: nat): Option<Bytes> {
    if n in fields then Some(fields[n]) else None
  }

  const MANDATORY: set<nat> := {GOCB_REF, TAL, DAT_SET, T, ST_NUM, SQ_NUM, CONF_REV, NUM_ENTRIES}

  // The header of a message whose fields are `f`; None when one is missing or unreadable.
  function ReadHeader(f: map<nat, Bytes>): Option<Header> {
    if !(MANDATORY <= f.Keys) then None
    else
      assert GOCB_REF in MANDATORY && TAL in MANDATORY && DAT_SET in MANDATORY && T in MANDATORY
             && ST_NUM in MANDATORY && SQ_NUM in MANDATORY && CONF_REV in MANDATORY && NUM_ENTRIES in MANDATORY;
      var t, tal, st := DecodeUtc(f[T]), Counter(f[TAL]), Counter(f[ST_NUM]);
      var sq, conf, entries := Counter(f[SQ_NUM]), Counter(f[CONF_REV]), Counter(f[NUM_ENTRIES]);
      if t.None? || tal.None? || st.None? || sq.None? || conf.None? || entries.None? then None
      else Some(Header(f[GOCB_REF], tal.value, f[DAT_SET], Lookup(f, GO_ID), t.value, st.value, sq.value,
                       LenientBool(Lookup(f, SIMULATION)), conf.value, LenientBool(Lookup(f, NDS_COM)),
                       entries.value))
  }

  // The TLVs of the message; octets after the PDU are ignored.
  function PduTlvs(apdu: Bytes): Option<seq<Tlv>> {
    match TlvOf(apdu)
    case Err(_) => None
    case Ok(outer) =>
      if outer.tag != TAG_GOOSE_PDU || Tlvs(outer.value).Err? then None else Some(Tlvs(outer.value).value)
  }

  function AllDataOf(f: map<nat, Bytes>): Bytes {
    if ALL_DATA in f then f[ALL_DATA] else []
  }

  function DecodePdu(apdu: Bytes): Option<Pdu> {
    match PduTlvs(apdu)
    case None => None
    case Some(ts) =>
      var f := FieldMap(ts);
      if ReadHeader(f).None? || DecodeSequence(AllDataOf(f)).Err? then None
      else Some(Pdu(ReadHeader(f).value, DecodeSequence(AllDataOf(f)).value))
  }

  // --- print then parse ------------------------------------------------------------------

  // What the native types hold.
  predicate TypedHeader(h: Header) {
    && h.tal < TWO_32 && h.stNum < TWO_32 && h.sqNum < TWO_32 && h.confRev < TWO_32 && h.entries < TWO_32
    && TypedUtc(h.t)
  }

  // The header as it is carried: a time fraction above 24 bits is the greatest of 24 bits.
  function Carried(h: Header): (r: Header)
    ensures r == h <==> h.t.fraction < 0x100_0000
  {
    h.(t := h.t.(fraction := Min(h.t.fraction, 0xFF_FFFF)))
  }

  lemma FieldNumber(tag: nat)
    requires tag < 0x100 && tag % 32 != 31
    ensures TagNumber(tag) == tag % 32
  {
    ShortTag(tag);
  }

  // Fields of one-octet context tags, in increasing order of their numbers.
  predicate FieldTags(fs: seq<Field>) {
    ShortTags(fs) && forall j, k :: 0 <= j < k < |fs| ==> fs[j].0 % 32 < fs[k].0 % 32
  }

  // TLVs read back from fields of increasing numbers.
  predicate ReadAs(fs: seq<Field>, ts: seq<Tlv>) {
    && ReadBack(fs, ts)
    && forall k :: 0 <= k < |fs| ==> TagNumber(ts[k].tag) == fs[k].0 % 32
  }

  lemma NumberedFieldsRoundTrip(fs: seq<Field>)
    requires FieldTags(fs) && |EncodeFields(fs)| < TWO_64
    ensures Tlvs(EncodeFields(fs)).Ok? && ReadAs(fs, Tlvs(EncodeFields(fs)).value)
  {
    hide TagNumber, EncodeFields, Tlvs;
    FieldsRoundTrip(fs);
    var ts := Tlvs(EncodeFields(fs)).value;
    forall k | 0 <= k < |fs|
      ensures TagNumber(ts[k].tag) == fs[k].0 % 32
    {
      FieldNumber(fs[k].0);
    }
  }

  // Fields written in increasing order are found again, and no others.
  lemma FieldIsFound(fs: seq<Field>, ts: seq<Tlv>, k: nat)
    requires FieldTags(fs) && ReadAs(fs, ts) && k < |fs|
    ensures Lookup(FieldMap(ts), fs[k].0 % 32) == Some(fs[k].1)
  {
    LastOccurrenceWins(ts, fs[k].0 % 32);
  }

  lemma FieldIsAbsent(fs: seq<Field>, ts: seq<Tlv>, n: nat)
    requires ReadAs(fs, ts) && forall k :: 0 <= k < |fs| ==> fs[k].0 % 32 != n
    ensures Lookup(FieldMap(ts), n) == None
  {
    LastOccurrenceWins(ts, n);
  }

  lemma CounterRoundTrip(v: nat)
    requires v < TWO_64
    ensures Counter(EncodeInteger(v)) == Some(v)
  {
    UnsignedRoundTrip(v);
  }

  // `f` holds the fields of `p` and nothing else below 12.
  predicate FieldsMatch(f: map<nat, Bytes>, p: Pdu) {
    var h := p.header;
    && Lookup(f, GOCB_REF) == Some(h.gocbRef)
    && Lookup(f, TAL) == Some(EncodeInteger(h.tal))
    && Lookup(f, DAT_SET) == Some(h.datSet)
    && Lookup(f, GO_ID) == h.goId
    && Lookup(f, T) == Some(EncodeUtc(h.t))
    && Lookup(f, ST_NUM) == Some(EncodeInteger(h.stNum))
    && Lookup(f, SQ_NUM) == Some(EncodeInteger(h.sqNum))
    && Lookup(f, SIMULATION) == Some(EncodeBoolean(h.simulation))
    && Lookup(f, CONF_REV) == Some(EncodeInteger(h.confRev))
    && Lookup(f, NDS_COM) == Some(EncodeBoolean(h.ndsCom))
    && Lookup(f, NUM_ENTRIES) == Some(EncodeInteger(h.entries))
    && Lookup(f, ALL_DATA) == Some(EncodeSequence(p.allData))
  }

  function FieldTag(n: nat): nat {
    if n == ALL_DATA then TAG_ALL_DATA else 0x80 + n
  }

  lemma FieldPlaces(p: Pdu)
    ensures var fs, d := FieldsOf(p), if p.header.goId.Some? then 1 else 0;
            |fs| == 11 + d && forall k :: 0 <= k < |fs| ==> fs[k].0 == FieldTag(if k < 3 then k else k + 1 - d)
    ensures FieldTags(FieldsOf(p))
  {
    hide EncodeInteger, EncodeUtc, EncodeBoolean, EncodeSequence;
  }

  lemma FieldContents(p: Pdu)
    ensures var fs, d, h := FieldsOf(p), if p.header.goId.Some? then 1 else 0, p.header;
            && |fs| == 11 + d
            && fs[0].1 == h.gocbRef && fs[1].1 == EncodeInteger(h.tal) && fs[2].1 == h.datSet
            && (d == 1 ==> fs[3].1 == h.goId.value)
            && fs[3 + d].1 == EncodeUtc(h.t) && fs[4 + d].1 == EncodeInteger(h.stNum)
            && fs[5 + d].1 == EncodeInteger(h.sqNum) && fs[6 + d].1 == EncodeBoolean(h.simulation)
            && fs[7 + d].1 == EncodeInteger(h.confRev) && fs[8 + d].1 == EncodeBoolean(h.ndsCom)
            && fs[9 + d].1 == EncodeInteger(h.entries) && fs[10 + d].1 == EncodeSequence(p.allData)
  {
    hide EncodeInteger, EncodeUtc, EncodeBoolean, EncodeSequence;
  }

  lemma EncodedFields(p: Pdu)
    requires |EncodeFields(FieldsOf(p))| < TWO_64
    ensures Tlvs(EncodeFields(FieldsOf(p))).Ok?
    ensures FieldsMatch(FieldMap(Tlvs(EncodeFields(FieldsOf(p))).value), p)
  {
    var fs := FieldsOf(p);
    FieldPlaces(p);
    NumberedFieldsRoundTrip(fs);
    var ts := Tlvs(EncodeFields(fs)).value;
    ReadFieldsMatch(p, fs, ts);
  }

  lemma FieldIsRead(fs: seq<Field>, ts: seq<Tlv>, k: nat, n: nat, content: Bytes)
    requires FieldTags(fs) && ReadAs(fs, ts) && k < |fs| && fs[k] == (FieldTag(n), content) && n <= ALL_DATA
    ensures Lookup(FieldMap(ts), n) == Some(content)
  {
    hide FieldTags, ReadAs, Lookup, FieldMap;
    FieldIsFound(fs, ts, k);
  }

  lemma FirstFieldsMatch(p: Pdu, fs: seq<Field>, ts: seq<Tlv>)
    requires fs == FieldsOf(p) && FieldTags(fs) && ReadAs(fs, ts)
    ensures var f, h := FieldMap(ts), p.header;
            && Lookup(f, GOCB_REF) == Some(h.gocbRef) && Lookup(f, TAL) == Some(EncodeInteger(h.tal))
            && Lookup(f, DAT_SET) == Some(h.datSet) && Lookup(f, GO_ID) == h.goId
  {
    hide FieldsOf, FieldMap, FieldTags, ReadAs, EncodeInteger, EncodeUtc, EncodeBoolean, EncodeSequence, Lookup;
    FieldPlaces(p);
    FieldContents(p);
    var h := p.header;
    FieldIsRead(fs, ts, 0, GOCB_REF, h.gocbRef);
    FieldIsRead(fs, ts, 1, TAL, EncodeInteger(h.tal));
    FieldIsRead(fs, ts, 2, DAT_SET, h.datSet);
    if h.goId.Some? {
      FieldIsRead(fs, ts, 3, GO_ID, h.goId.value);
    } else {
      FieldIsAbsent(fs, ts, GO_ID);
    }
  }

  lemma ReadFieldsMatch(p: Pdu, fs: seq<Field>, ts: seq<Tlv>)
    requires fs == FieldsOf(p) && FieldTags(fs) && ReadAs(fs, ts)
    ensures FieldsMatch(FieldMap(ts), p)
  {
    hide FieldsOf, FieldMap, FieldTags, ReadAs, EncodeInteger, EncodeUtc, EncodeBoolean, EncodeSequence, Lookup;
    FirstFieldsMatch(p, fs, ts);
    FieldPlaces(p);
    FieldContents(p);
    var h := p.header;
    var d := if h.goId.Some? then 1 else 0;
    FieldIsRead(fs, ts, 3 + d, T, EncodeUtc(h.t));
    FieldIsRead(fs, ts, 4 + d, ST_NUM, EncodeInteger(h.stNum));
    FieldIsRead(fs, ts, 5 + d, SQ_NUM, EncodeInteger(h.sqNum));
    FieldIsRead(fs, ts, 6 + d, SIMULATION, EncodeBoolean(h.simulation));
    FieldIsRead(fs, ts, 7 + d, CONF_REV, EncodeInteger(h.confRev));
    FieldIsRead(fs, ts, 8 + d, NDS_COM, EncodeBoolean(h.ndsCom));
    FieldIsRead(fs, ts, 9 + d, NUM_ENTRIES, EncodeInteger(h.entries));
    FieldIsRead(fs, ts, 10 + d, ALL_DATA, EncodeSequence(p.allData));
  }

  lemma HeaderRoundTrip(f: map<nat, Bytes>, p: Pdu)
    requires TypedHeader(p.header) && FieldsMatch(f, p)
    ensures ReadHeader(f) == Some(Carried(p.header))
  {
    var h := p.header;
    CounterRoundTrip(h.tal);
    CounterRoundTrip(h.stNum);
    CounterRoundTrip(h.sqNum);
    CounterRoundTrip(h.confRev);
    CounterRoundTrip(h.entries);
    UtcRoundTrip(h.t);
  }

  // Every message of typed counters and readable values is decoded as it was encoded,
  // whatever octets follow it.
  lemma PduRoundTrip(p: Pdu, padding: Bytes)
    requires TypedHeader(p.header) && AllLeaves(p.allData, Readable)
    requires |EncodePdu(p)| < TWO_64
    ensures DecodePdu(EncodePdu(p) + padding) == Some(Pdu(Carried(p.header), p.allData))
    ensures DecodePdu(EncodePdu(p) + padding) == Some(p) <==> p.header.t.fraction < 0x100_0000
  {
    hide EncodeTlv, TlvOf, Tlvs, FieldMap, ReadHeader, DecodeSequence, PduTlvs, AllLeaves, EncodeFields, FieldsOf, EncodeSequence;
    var content := EncodeFields(FieldsOf(p));
    ContentFits(TAG_GOOSE_PDU, content);
    EncodedFields(p);
    PduTlvsRoundTrip(content, padding);
    HeaderRoundTrip(FieldMap(Tlvs(content).value), p);
    FieldContents(p);
    LastFieldFits(FieldsOf(p));
    SequenceRoundTrip(p.allData);
  }

  lemma PduTlvsRoundTrip(content: Bytes, padding: Bytes)
    requires |content| < TWO_64 && Tlvs(content).Ok?
    ensures PduTlvs(EncodeTlv(TAG_GOOSE_PDU, content) + padding) == Some(Tlvs(content).value)
  {
    hide EncodeTlv, TlvOf, Tlvs;
    ShortTag(TAG_GOOSE_PDU);
    TlvRoundTrip(TAG_GOOSE_PDU, content, padding);
  }

  // --- native encoding -------------------------------------------------------------------

  datatype EncodeError = BufferTooSmall(needed: nat) | InData(data: DataError) | InFrame(frame: FrameError)

  // The header fields, their integers taken from 64-bit forms.
  function NativeFields(h: Header): (fs: seq<Field>)
    requires TypedHeader(h)
    ensures fs == HeaderFields(h)
  {
    NativeUnsignedIsMinimal(h.tal);
    NativeUnsignedIsMinimal(h.stNum);
    NativeUnsignedIsMinimal(h.sqNum);
    NativeUnsignedIsMinimal(h.confRev);
    NativeUnsignedIsMinimal(h.entries);
    [(0x80, h.gocbRef), (0x81, NativeUnsignedOctets(h.tal)), (0x82, h.datSet)]
    + (if h.goId.Some? then [(0x83, h.goId.value)] else [])
    + [(0x84, EncodeUtc(h.t)), (0x85, NativeUnsignedOctets(h.stNum)), (0x86, NativeUnsignedOctets(h.sqNum)),
       (0x87, EncodeBoolean(h.simulation)), (0x88, NativeUnsignedOctets(h.confRev)),
       (0x89, EncodeBoolean(h.ndsCom)), (0x8A, NativeUnsignedOctets(h.entries))]
  }

  function ContentLen(h: Header, allDataLen: nat): nat
    requires TypedHeader(h)
  {
    FieldsLen(NativeFields(h)) + TlvLen(TAG_ALL_DATA, allDataLen)
  }

  lemma ContentLenIsExact(p: Pdu)
    requires TypedHeader(p.header)
    ensures var n := ContentLen(p.header, |EncodeSequence(p.allData)|);
            n == |EncodeFields(FieldsOf(p))| && TlvLen(TAG_GOOSE_PDU, n) == |EncodePdu(p)|
  {
    hide HeaderFields, EncodeSequence, EncodeTlv, TlvLen;
    FieldPlaces(p);
    var last := (TAG_ALL_DATA, EncodeSequence(p.allData));
    assert ShortTags(HeaderFields(p.header)) by {
      forall k | 0 <= k < |HeaderFields(p.header)|
        ensures HeaderFields(p.header)[k] == FieldsOf(p)[k]
      {
      }
    }
    FieldsLenIsExact(HeaderFields(p.header));
    EncodeFieldsConcat(HeaderFields(p.header), [last]);
    assert EncodeFields([last]) == EncodeTlv(last.0, last.1) + EncodeFields([]);
    TlvLenIsExact(TAG_ALL_DATA, last.1);
    TlvLenIsExact(TAG_GOOSE_PDU, EncodeFields(FieldsOf(p)));
  }

  // Writes the PDU whose lengths were measured; it never runs out of the room measured.
  method WritePdu(h: Header, items: seq<Item>, allDataLen: nat, contentLen: nat, w: Writer) returns (ok: bool)
    requires w.Valid() && TypedHeader(h) && TypedItems(items) && Forest(items).Ok?
    requires allDataLen == |EncodeSequence(Forest(items).value)| && contentLen == ContentLen(h, allDataLen)
    requires w.pos + |EncodePdu(Pdu(h, Forest(items).value))| <= w.buf.Length
    modifies w, w.buf
    ensures w.Valid() && ok
    ensures Extends(old(w.buf[..]), old(w.pos), w.buf[..], w.pos, EncodePdu(Pdu(h, Forest(items).value)))
  {
    ghost var p := Pdu(h, Forest(items).value);
    ghost var before := PduBeforeData(h, contentLen, allDataLen);
    ContentLenIsExact(p);
    WholePdu(p);
    ok := WriteBeforeData(h, contentLen, allDataLen, w);
    ghost var b1, p1 := w.buf[..], w.pos;
    var r := WriteSequence(items, w);
    ExtendsTwice(old(w.buf[..]), old(w.pos), b1, p1, w.buf[..], w.pos, before, EncodeSequence(p.allData));
    ok := r.Ok?;
  }

  // The PDU's header, its header fields and the header of allData.
  ghost function PduBeforeData(h: Header, contentLen: nat, allDataLen: nat): Bytes {
    (EncodeTag(TAG_GOOSE_PDU) + EncodeLength(contentLen)) + EncodeFields(HeaderFields(h))
    + (EncodeTag(TAG_ALL_DATA) + EncodeLength(allDataLen))
  }

  method WriteBeforeData(h: Header, contentLen: nat, allDataLen: nat, w: Writer) returns (ok: bool)
    requires w.Valid() && TypedHeader(h)
    modifies w, w.buf
    ensures w.Valid()
    ensures ok == (old(w.pos) + |PduBeforeData(h, contentLen, allDataLen)| <= w.buf.Length)
    ensures ok ==> Extends(old(w.buf[..]), old(w.pos), w.buf[..], w.pos, PduBeforeData(h, contentLen, allDataLen))
  {
    hide EncodeTag, EncodeLength, EncodeFields, HeaderFields;
    ghost var outer := EncodeTag(TAG_GOOSE_PDU) + EncodeLength(contentLen);
    ghost var fields := EncodeFields(HeaderFields(h));
    ok := w.PutHeader(TAG_GOOSE_PDU, contentLen);
    if !ok {
      return;
    }
    ghost var b1, p1 := w.buf[..], w.pos;
    ok := PutFields(NativeFields(h), w);
    if !ok {
      return;
    }
    ghost var b2, p2 := w.buf[..], w.pos;
    ExtendsTwice(old(w.buf[..]), old(w.pos), b1, p1, b2, p2, outer, fields);
    ok := w.PutHeader(TAG_ALL_DATA, allDataLen);
    if ok {
      ExtendsTwice(old(w.buf[..]), old(w.pos), b2, p2, w.buf[..], w.pos, outer + fields,
                   EncodeTag(TAG_ALL_DATA) + EncodeLength(allDataLen));
    }
  }

  lemma WholePdu(p: Pdu)
    ensures EncodePdu(p)
         == PduBeforeData(p.header, |EncodeFields(FieldsOf(p))|, |EncodeSequence(p.allData)|)
            + EncodeSequence(p.allData)
  {
    hide EncodeTag, EncodeLength, HeaderFields;
    var last := (TAG_ALL_DATA, EncodeSequence(p.allData));
    EncodeFieldsConcat(HeaderFields(p.header), [last]);
    assert EncodeFields([last]) == EncodeTlv(last.0, last.1) + EncodeFields([]);
  }

  // The whole frame into the caller's buffer: exactly the measured octets, nothing beyond
  // them, and nothing at all when the message, the address or the buffer is refused.
  method EncodeFrame(h: Header, items: seq<Item>, a: Address, out: array<Octet>) returns (r: Result<nat, EncodeError>)
    requires TypedHeader(h) && TypedItems(items) && TypedAddress(a)
    modifies out
    ensures match Forest(items)
            case Err(e) => r == Err(InData(e)) && out[..] == old(out[..])
            case Ok(vs) =>
              match BuildFrame(a, ETHERTYPE_GOOSE, EncodePdu(Pdu(h, vs)))
              case Err(e) => r == Err(InFrame(e)) && out[..] == old(out[..])
              case Ok(frame) =>
                if out.Length < |frame| then r == Err(BufferTooSmall(|frame|)) && out[..] == old(out[..])
                else r == Ok(|frame|) && out[..|frame|] == frame && out[|frame|..] == old(out[..])[|frame|..]
  {
    hide EncodePdu, HeaderOctets, ContentLen, TlvLen, Forest;
    var measured := SequenceLen(items);
    if measured.Err? {
      return Err(InData(measured.error));
    }
    ghost var p := Pdu(h, Forest(items).value);
    ContentLenIsExact(p);
    var contentLen := ContentLen(h, measured.value);
    var apduLen := TlvLen(TAG_GOOSE_PDU, contentLen);
    var refused := Check(a, apduLen);
    if refused.Some? {
      return Err(InFrame(refused.value));
    }
    var needed := HeaderLen(a) + apduLen;
    HeaderLenIsExact(a, ETHERTYPE_GOOSE, apduLen);
    if out.Length < needed {
      return Err(BufferTooSmall(needed));
    }
    var w := new Writer(out);
    var ok := WriteHeader(a, ETHERTYPE_GOOSE, apduLen, w);
    ghost var b1, p1 := out[..], w.pos;
    ok := WritePdu(h, items, measured.value, contentLen, w);
    ExtendsTwice(old(out[..]), 0, b1, p1, out[..], w.pos, HeaderOctets(a, ETHERTYPE_GOOSE, apduLen), EncodePdu(p));
    return Ok(needed);
  }

  // --- native decoding -------------------------------------------------------------------

  datatype DecodeError = InBer(ber: BerError) | UnexpectedTag | MissingField | TooLarge | EmptyCounter
                       | InAllData(ber: BerError) | Time | InHeader

  datatype Received = Received(header: Header, count: nat, allData: Bytes)

  // What the native decoder returns is what Python returns: the same fields, the number of
  // top-level values, and octets whose values are those of the tree.
  ghost predicate SameMessage(m: Received, p: Pdu) {
    && m.header == p.header
    && m.count == |p.allData|
    && DecodeSequence(m.allData) == Ok(p.allData)
  }

  // The number of the tag whose identifier octets start at `offset`, saturating at 32 bits.
  method NativeTagNumberAt(data: Bytes, offset: nat) returns (number: nat)
    requires offset < |data| && TlvOf(data[offset..]).Ok?
    ensures number == Min(TagNumber(TlvOf(data[offset..]).value.tag), U32_MAX)
  {
    ghost var s := data[offset..];
    ghost var n := TagOf(s).value.1;
    ReadNumber(s);
    if data[offset] % 32 != 31 {
      return data[offset] % 32;
    }
    hide TagOf, TlvOf, TagNumber, SevenBits;
    ghost var octets := s[1..n];
    number := 0;
    NumberBegins(octets);
    var at := offset + 1;
    while at < |data|
      invariant offset + 1 <= at < offset + n
      invariant number == Min(SevenBits(octets[..at - offset - 1]), U32_MAX)
      decreases |data| - at
    {
      var b := data[at];
      assert b == s[at - offset] == octets[at - offset - 1];
      NumberGoesOn(octets, at - offset - 1);
      number := if number > 0x1FF_FFFF then U32_MAX else number * 128 + b % 128;
      at := at + 1;
      if b < 128 {
        break;
      }
    }
    assert octets[..n - 1] == octets;
  }

  // A tag number is in its first octet, or in those after it up to the first below 128.
  lemma ReadNumber(s: Bytes)
    requires TagOf(s).Ok?
    ensures var (tag, n) := TagOf(s).value;
            && 1 <= n <= |s|
            && (s[0] % 32 != 31 ==> TagNumber(tag) == s[0] % 32)
            && (s[0] % 32 == 31 ==> && n >= 2 && TagNumber(tag) == SevenBits(s[1..n]) && s[n - 1] < 128
                                    && forall k :: 1 <= k < n - 1 ==> s[k] >= 128)
  {
    hide TagOf, EncodeTag, SevenBits;
    ReadTagOctets(s);
    TagReadIsIdentifier(s);
    var (tag, n) := TagOf(s).value;
    TagOfBound(s);
    assert s[..n][1..] == s[1..n];
  }

  lemma TagOfBound(s: Bytes)
    requires TagOf(s).Ok?
    ensures TagOf(s).value.1 <= |s|
  {
  }

  lemma NumberBegins(octets: Bytes)
    ensures Min(SevenBits(octets[..0]), U32_MAX) == 0
  {
  }

  // One more octet, saturated.
  lemma NumberGoesOn(octets: Bytes, k: nat)
    requires k < |octets|
    ensures var before := Min(SevenBits(octets[..k]), U32_MAX);
            Min(SevenBits(octets[..k + 1]), U32_MAX) == if before > 0x1FF_FFFF then U32_MAX else before * 128 + octets[k] % 128
  {
    assert octets[..k + 1][..k] == octets[..k];
  }

  // The octets a tag was read from are those it is written with.
  lemma ReadTagOctets(s: Bytes)
    requires TagOf(s).Ok?
    ensures EncodeTag(TagOf(s).value.0) == s[..TagOf(s).value.1]
  {
    var (tag, n) := TagOf(s).value;
    var octets := s[..n];
    TagReadIsIdentifier(s);
    if n == 1 {
      assert octets == [s[0]] && FromBE([s[0]]) == s[0] by { assert [s[0]][..0] == []; }
      ShortTag(s[0]);
    } else {
      FromBEBound(octets);
      OctetCountAtMost(tag, n);
      OctetCountIsLeast(tag);
      LeadingOctet(octets);
      if OctetCount(tag) < n {
        PowersGrow(OctetCount(tag), n - 1);
      }
      ToFromBE(octets);
    }
  }

  method NativeCounter(content: Bytes) returns (r: Result<nat, DecodeError>)
    ensures r.Ok? <==> Counter(content).Some?
    ensures r.Ok? ==> r.value == Counter(content).value
  {
    var v := NativeDecodeUnsigned(content);
    match v
    case Ok(n) => return Ok(n);
    case Err(IntegerTooLarge) => return Err(TooLarge);
    case Err(EmptyInteger) => return Err(EmptyCounter);
    case Err(e) => return Err(InBer(e));
  }

  // The content of each field met so far, by number.
  type FieldArray = fs: seq<Option<Bytes>> | |fs| == 12 witness seq(12, _ => None)

  predicate Holds(fields: FieldArray, f: map<nat, Bytes>) {
    forall n :: 0 <= n < 12 ==> fields[n] == Lookup(f, n)
  }

  const NO_FIELDS: FieldArray := seq(12, _ => None)

  lemma HoldsField(fields: FieldArray, f: map<nat, Bytes>, number: nat, value: Bytes)
    requires Holds(fields, f)
    ensures number < 12 ==> Holds(fields[number := Some(value)], f[number := value])
    ensures number >= 12 ==> Holds(fields, f[number := value])
  {
  }

  // Fills the field array in one pass over the TLVs; a long tag counts by its true number.
  method NativeScanFields(content: Bytes) returns (r: Result<FieldArray, BerError>)
    requires |content| < TWO_63
    ensures r.Ok? <==> Tlvs(content).Ok?
    ensures r.Ok? ==> Holds(r.value, FieldMap(Tlvs(content).value))
  {
    hide TlvOf, Tlvs, Scanned, TagNumber;
    var fields := NO_FIELDS;
    var at := 0;
    ghost var done: seq<Tlv> := [];
    ScannedStart(content);
    while at < |content|
      invariant at <= |content| && Scanned(content, done, at)
      invariant Holds(fields, FieldMap(done))
    {
      var tlv := NativeDecodeTlv(content, at);
      if tlv.Err? {
        ScannedFailure(content, done, at);
        return Err(tlv.error);
      }
      ghost var t := TlvOf(content[at..]).value;
      var number := NativeTagNumberAt(content, at);
      FieldMapSnoc(done, t);
      HoldsField(fields, FieldMap(done), TagNumber(t.tag), t.value);
      if number < 12 {
        fields := fields[number := Some(tlv.value.value)];
      }
      ScannedStep(content, done, at);
      done := done + [t];
      at := tlv.value.end;
    }
    ScannedEnd(content, done);
    return Ok(fields);
  }

  // Decodes and checks a message: accepts exactly the octets Python accepts, and returns
  // the same message.
  method NativeDecodePdu(apdu: Bytes) returns (r: Result<Received, DecodeError>)
    requires |apdu| < TWO_63
    ensures r.Ok? <==> DecodePdu(apdu).Some?
    ensures r.Ok? ==> SameMessage(r.value, DecodePdu(apdu).value)
  {
    hide TlvOf, Tlvs, FieldMap, ReadHeader, DecodeSequence;
    var outer := NativeDecodeTlv(apdu, 0);
    assert Suffix(apdu, 0) == apdu;
    if outer.Err? {
      return Err(InBer(outer.error));
    }
    if outer.value.tag != TAG_GOOSE_PDU {
      return Err(UnexpectedTag);
    }
    var content := outer.value.value;
    var scanned := NativeScanFields(content);
    if scanned.Err? {
      return Err(InBer(scanned.error));
    }
    ghost var f := FieldMap(Tlvs(content).value);
    FieldsLieWithin(Tlvs(content).value, |content|);
    r := NativeReadFields(scanned.value, f);
  }

  lemma {:induction false} FieldsLieWithin(ts: seq<Tlv>, bound: nat)
    requires forall k :: 0 <= k < |ts| ==> |ts[k].value| <= bound
    ensures forall n <- FieldMap(ts) :: |FieldMap(ts)[n]| <= bound
  {
    if ts != [] {
      FieldsLieWithin(ts[..|ts| - 1], bound);
    }
  }

  // The message of a filled field array.
  method NativeReadFields(fields: FieldArray, ghost f: map<nat, Bytes>) returns (r: Result<Received, DecodeError>)
    requires Holds(fields, f) && |AllDataOf(f)| < TWO_63
    ensures r.Ok? <==> ReadHeader(f).Some? && DecodeSequence(AllDataOf(f)).Ok?
    ensures r.Ok? ==> SameMessage(r.value, Pdu(ReadHeader(f).value, DecodeSequence(AllDataOf(f)).value))
  {
    var mandatory := [GOCB_REF, TAL, DAT_SET, T, ST_NUM, SQ_NUM, CONF_REV, NUM_ENTRIES];
    for i := 0 to 8
      invariant forall k :: 0 <= k < i ==> mandatory[k] in f
    {
      if fields[mandatory[i]].None? {
        assert mandatory[i] in MANDATORY;
        return Err(MissingField);
      }
    }
    AllMandatory(f, mandatory);
    var allData := if fields[ALL_DATA].Some? then fields[ALL_DATA].value else [];
    var tal := NativeCounter(fields[TAL].value);
    if tal.Err? { return Err(tal.error); }
    var t := DecodeUtc(fields[T].value);
    if t.None? { return Err(Time); }
    var st := NativeCounter(fields[ST_NUM].value);
    if st.Err? { return Err(st.error); }
    var sq := NativeCounter(fields[SQ_NUM].value);
    if sq.Err? { return Err(sq.error); }
    var conf := NativeCounter(fields[CONF_REV].value);
    if conf.Err? { return Err(conf.error); }
    var entries := NativeCounter(fields[NUM_ENTRIES].value);
    if entries.Err? { return Err(entries.error); }
    var count := CheckSequence(allData);
    if count.Err? { return Err(InAllData(count.error)); }
    return Ok(Received(Header(fields[GOCB_REF].value, tal.value, fields[DAT_SET].value, fields[GO_ID], t.value,
                              st.value, sq.value, LenientBool(fields[SIMULATION]), conf.value,
                              LenientBool(fields[NDS_COM]), entries.value), count.value, allData));
  }

  // `decode_frame`: nothing for a frame that is not GOOSE, else its message or a refusal.
  method NativeDecodeFrame(raw: Bytes) returns (r: Result<Option<(Frame, Received)>, DecodeError>)
    requires |raw| < TWO_63
    ensures match ParseFrame(raw, {ETHERTYPE_GOOSE})
            case None => r == Ok(None)
            case Some(frame) =>
              match DecodePdu(frame.apdu)
              case None => r.Err?
              case Some(p) => r.Ok? && r.value.Some? && r.value.value.0 == frame && SameMessage(r.value.value.1, p)
  {
    hide ReadHeader, FieldMap, Tlvs;
    var frame := NativeParseFrame(raw, {ETHERTYPE_GOOSE});
    if frame.None? {
      return Ok(None);
    }
    if frame.value.apdu == [] {
      return Err(InHeader);
    }
    var message := NativeDecodePdu(frame.value.apdu);
    return if message.Err? then Err(message.error) else Ok(Some((frame.value, message.value)));
  }

  // --- whole frames ----------------------------------------------------------------------

  // The frame the native encoder writes, read by the native decoder: the same header, the
  // same counters, and the iterator yields the very sequence that was encoded, whatever
  // padding follows the frame.
  lemma FrameTrip(h: Header, items: seq<Item>, a: Address, padding: Bytes, m: Received)
    requires TypedHeader(h) && TypedItems(items) && TypedAddress(a) && Forest(items).Ok?
    requires AllLeaves(Forest(items).value, Readable)
    requires Check(a, |EncodePdu(Pdu(h, Forest(items).value))|) == None
    ensures var p := Pdu(h, Forest(items).value);
            var frame := BuildFrame(a, ETHERTYPE_GOOSE, EncodePdu(p)).value;
            && ParseFrame(frame + padding, {ETHERTYPE_GOOSE})
               == Some(Frame(a.dst, a.src, a.vlan, ETHERTYPE_GOOSE, a.appId, 0, 0, EncodePdu(p)))
            && DecodePdu(EncodePdu(p)) == Some(Pdu(Carried(h), p.allData))
            && (SameMessage(m, Pdu(Carried(h), p.allData)) ==>
                  m.header == Carried(h) && m.count == |p.allData| && Items(m.allData) == items)
  {
    hide EncodePdu, DecodePdu, ParseFrame, BuildFrame, DecodeSequence, Items, Preorder, ForestAt, AllLeaves;
    var p := Pdu(h, Forest(items).value);
    FrameRoundTrip(a, ETHERTYPE_GOOSE, EncodePdu(p), padding, {ETHERTYPE_GOOSE});
    PduRoundTrip(p, []);
    assert EncodePdu(p) + [] == EncodePdu(p);
    if SameMessage(m, Pdu(Carried(h), p.allData)) {
      ForestIsPreorder(items, 0);
      assert items[0..] == items;
      ItemsArePreorder(m.allData, []);
      assert m.allData + [] == m.allData;
      NoItems();
      NativeReadingIsExact(Items(m.allData), items);
    }
  }

  lemma NoItems()
    ensures Items([]) == []
  {
  }

  lemma AllMandatory(f: map<nat, Bytes>, list: seq<nat>)
    requires list == [GOCB_REF, TAL, DAT_SET, T, ST_NUM, SQ_NUM, CONF_REV, NUM_ENTRIES]
    requires forall k :: 0 <= k < 8 ==> list[k] in f
    ensures MANDATORY <= f.Keys
  {
    forall n | n in MANDATORY
      ensures n in f
    {
      assert n in list;
    }
  }
}
