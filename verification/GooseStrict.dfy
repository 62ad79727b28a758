/**
 The strict decoding of GOOSE: what the lenient one accepts but IEC 61850-8-1 does not
 allow. `check_strict` scans the fields once and walks allData once, with no stack; it
 accepts exactly the messages that conform field by field and value by value, at any depth.
 */
module GooseStrict {
  import opened Octets
  import opened Ber
  import opened TlvLists
  import opened Data
  import opened FlatData
  import opened FlatReader
  import opened Ethernet
  import opened Goose

  const STRING_MAX: nat := 129
  const U32_OCTETS: nat := 5

  predicate Visible(s: Bytes) {
    forall k :: 0 <= k < |s| ==> 0x20 <= s[k] <= 0x7E
  }

  // --- what 8-1 allows -------------------------------------------------------------------

  // A value of the `Data` CHOICE: context class, constructed for an array or a structure
  // only, with the size and the alphabet its type fixes.
  predicate ConformantTlv(tag: nat, value: Bytes) {
    && 0x80 <= tag <= 0xFF && tag / 64 == 2 && tag % 32 != 31
    && (tag / 32 % 2 == 1 <==> IsContainer(tag))
    && (tag == TAG_BOOLEAN ==> |value| == 1)
    && (tag == TAG_FLOAT ==> |value| in {5, 9})
    && (tag == TAG_BINARY_TIME ==> |value| in {4, 6})
    && (tag == TAG_UTC_TIME ==> |value| == 8)
    && (tag == TAG_BIT_STRING ==> value != [] && value[0] <= 7)
    && (tag == TAG_INTEGER || tag == TAG_UNSIGNED ==> value != [])
    && (tag == TAG_VISIBLE_STRING ==> Visible(value))
    && tag !in {0x81, 0x82}
  }

  predicate IsField(tag: nat) {
    0x80 <= tag <= 0x8A || tag == TAG_ALL_DATA
  }

  // The fields of the SEQUENCE, in increasing order, each at most once and none else.
  predicate InSequence(ts: seq<Tlv>) {
    ts == [] || var (init, last) := (ts[..|ts| - 1], ts[|ts| - 1].tag);
                InSequence(init) && IsField(last) && (init == [] || init[|init| - 1].tag < last)
  }

  predicate VisibleString129(field: Option<Bytes>) {
    field.Some? ==> |field.value| <= STRING_MAX && Visible(field.value)
  }

  // INT32U: at most 5 octets, the first of 5 being 00.
  predicate Int32U(field: Option<Bytes>) {
    field.Some? ==> |field.value| <= U32_OCTETS && (|field.value| == U32_OCTETS ==> field.value[0] == 0)
  }

  predicate OneOctet(field: Option<Bytes>) {
    field.Some? ==> |field.value| == 1
  }

  // The header fields, by number.
  predicate ConformantFields(f: map<nat, Bytes>) {
    && VisibleString129(Lookup(f, GOCB_REF)) && VisibleString129(Lookup(f, DAT_SET)) && VisibleString129(Lookup(f, GO_ID))
    && Lookup(f, GOCB_REF) != Some([])
    && (Lookup(f, T).Some? ==> |f[T]| == 8)
    && Int32U(Lookup(f, TAL)) && Int32U(Lookup(f, ST_NUM)) && Int32U(Lookup(f, SQ_NUM))
    && Int32U(Lookup(f, CONF_REV)) && Int32U(Lookup(f, NUM_ENTRIES))
    && OneOctet(Lookup(f, SIMULATION)) && OneOctet(Lookup(f, NDS_COM))
  }

  // A message the lenient decoding accepts and 8-1 allows.
  predicate Conformant(apdu: Bytes) {
    && DecodePdu(apdu).Some?
    && TlvOf(apdu).value.end == |apdu|
    && var ts := PduTlvs(apdu).value;
       var f := FieldMap(ts);
       && InSequence(ts)
       && ConformantFields(f)
       && ALL_DATA in f
       && DecodePdu(apdu).value.header.entries == |DecodePdu(apdu).value.allData|
       && Everywhere(f[ALL_DATA], ConformantTlv)
  }

  // --- the native check ------------------------------------------------------------------

  datatype Deviation = OctetsAfterPdu | NotAField | OutOfOrder | NotVisibleString129 | EmptyGocbRef | TimeSize
                     | Above32Bits | BooleanSize | NoAllData | EntriesMismatch | NotAData | DataSize
                     | BitStringUnused | EmptyInt | DataNotVisible

  // One value of allData; None when it conforms.
  function CheckTlv(tag: nat, value: Bytes): Option<Deviation> {
    var container := tag % 32 == 1 || tag % 32 == 2;
    if tag > 0xFF || tag / 64 != 2 || tag % 32 == 31 || (tag / 32 % 2 == 1) != container then Some(NotAData)
    else if container then None
    else if tag == 0x83 && |value| != 1 then Some(DataSize)
    else if tag == 0x87 && |value| != 5 && |value| != 9 then Some(DataSize)
    else if tag == 0x8C && |value| != 4 && |value| != 6 then Some(DataSize)
    else if tag == 0x91 && |value| != 8 then Some(DataSize)
    else if tag == 0x84 && (value == [] || value[0] > 7) then Some(BitStringUnused)
    else if (tag == 0x85 || tag == 0x86) && value == [] then Some(EmptyInt)
    else if tag == 0x8A && !Visible(value) then Some(DataNotVisible)
    else None
  }

  lemma CheckTlvIsConformance(tag: nat, value: Bytes)
    ensures CheckTlv(tag, value) == None <==> ConformantTlv(tag, value)
    ensures ConformantTlv(tag, value) ==> (IsContainer(tag) <==> tag % 32 == 1 || tag % 32 == 2)
  {
  }

  // One pass over allData, stepping into structures.
  method CheckStrictData(allData: Bytes) returns (r: Option<Deviation>)
    requires |allData| < TWO_63 && DecodeSequence(allData).Ok?
    ensures r == None <==> Everywhere(allData, ConformantTlv)
  {
    hide TlvOf, DecodeSequence, Everywhere;
    CheckIsDecode(allData);
    WalkVisitsEverything(allData, [], ConformantTlv);
    assert allData + [] == allData;
    var at := 0;
    assert allData[0..] == allData;
    while at < |allData|
      invariant at <= |allData|
      invariant Walk(allData[at..], MembersTile)
      invariant Walk(allData, ConformantTlv) <==> Walk(allData[at..], ConformantTlv)
    {
      ghost var s := allData[at..];
      var tlv := NativeDecodeTlv(allData, at);
      var tag, value, end := tlv.value.tag, tlv.value.value, tlv.value.end;
      SuffixOfSuffix(allData, at, end);
      SuffixOfSuffix(allData, at, end - |value|);
      CheckTlvIsConformance(tag, value);
      CheckTlvIsConformance(TlvOf(s).value.tag, value);
      r := CheckTlv(tag, value);
      if r.Some? {
        return;
      }
      at := if tag % 32 == 1 || tag % 32 == 2 then end - |value| else end;
      assert allData[at..] == After(s, TlvOf(s).value);
    }
    return None;
  }

  // Scans the fields; a long tag reads as 2^32 - 1 here, which is no field either.
  method CheckFieldOrder(content: Bytes, ghost ts: seq<Tlv>) returns (r: Result<FieldArray, Deviation>)
    requires |content| < TWO_63 && Tlvs(content) == Ok(ts)
    ensures r.Ok? <==> InSequence(ts)
    ensures r.Ok? ==> Holds(r.value, FieldMap(ts))
  {
    InOrderStart(content);
    var fields := NO_FIELDS;
    var at := 0;
    var previous := -1;
    ghost var done: seq<Tlv> := [];
    while at < |content|
      invariant at <= |content| && InOrder(content, done, at, previous)
      invariant Holds(fields, FieldMap(done))
    {
      var tlv := NativeDecodeTlv(content, at);
      ghost var t := InOrderStep(content, done, at, previous, tlv);
      var number := FieldIndex(tlv.value.tag);
      if number < 0 || number <= previous {
        return Err(if number < 0 then NotAField else OutOfOrder);
      }
      FieldMapSnoc(done, t);
      HoldsField(fields, FieldMap(done), number, t.value);
      fields := fields[number := Some(tlv.value.value)];
      previous := number;
      done := done + [t];
      at := tlv.value.end;
    }
    InOrderEnd(content, done, previous);
    return Ok(fields);
  }

  // `done` are the TLVs before `at`: fields in order, the last of number `previous`.
  ghost predicate InOrder(content: Bytes, done: seq<Tlv>, at: nat, previous: int) {
    && at <= |content| && Scanned(content, done, at) && InSequence(done)
    && previous == if done == [] then -1 else FieldIndex(done[|done| - 1].tag)
  }

  lemma InOrderStart(content: Bytes)
    ensures InOrder(content, [], 0, -1)
  {
    ScannedStart(content);
  }

  lemma InOrderEnd(content: Bytes, done: seq<Tlv>, previous: int)
    requires InOrder(content, done, |content|, previous)
    ensures Tlvs(content) == Ok(done) && InSequence(done)
  {
    ScannedEnd(content, done);
  }

  // The TLV at hand, whose number (read from its 32-bit tag) decides whether the list is
  // still in sequence.
  lemma InOrderStep(content: Bytes, done: seq<Tlv>, at: nat, previous: int, read: Result<Tlv, BerError>) returns (t: Tlv)
    requires at < |content| && InOrder(content, done, at, previous) && Tlvs(content).Ok?
    requires ReadAt(content, at, read)
    ensures read.Ok? && t.value == read.value.value
    ensures FieldIndex(read.value.tag) < 0 || FieldIndex(read.value.tag) <= previous
            ==> !InSequence(Tlvs(content).value)
    ensures FieldIndex(read.value.tag) >= 0 && FieldIndex(read.value.tag) > previous
            ==> && FieldIndex(read.value.tag) < 12 && TagNumber(t.tag) == FieldIndex(read.value.tag)
                && InOrder(content, done + [t], read.value.end, FieldIndex(read.value.tag))
  {
    hide TlvOf, Tlvs, Scanned, FieldIndex, TagNumber, NarrowTag, InSequence;
    t := NextScanned(content, done, at);
    FieldIndexOfNarrow(t.tag);
    OneMoreField(done, t, previous);
    var ts := Tlvs(content).value;
    assert ts[..|done| + 1] == done + [t];
    if InSequence(done + [t]) {
      ScannedStep(content, done, at);
    } else {
      PrefixInSequence(ts, |done| + 1);
    }
  }

  lemma OneMoreField(done: seq<Tlv>, t: Tlv, previous: int)
    requires InSequence(done) && previous == if done == [] then -1 else FieldIndex(done[|done| - 1].tag)
    ensures InSequence(done + [t]) <==> FieldIndex(t.tag) >= 0 && FieldIndex(t.tag) > previous
  {
    hide FieldIndex, TagNumber;
    FieldIndexOfNarrow(t.tag);
    assert (done + [t])[..|done|] == done;
    if done != [] && IsField(t.tag) {
      IndexesGrowWithTags(done[|done| - 1].tag, t.tag);
    }
  }

  lemma {:induction false} PrefixInSequence(ts: seq<Tlv>, n: nat)
    requires n <= |ts| && !InSequence(ts[..n])
    ensures !InSequence(ts)
    decreases |ts| - n
  {
    if n < |ts| {
      assert ts[..n + 1][..n] == ts[..n];
      PrefixInSequence(ts, n + 1);
    } else {
      assert ts[..n] == ts;
    }
  }

  // The number of a tag that is exactly a field's, else -1.
  function FieldIndex(tag: nat): int {
    var number := tag % 32;
    if tag != (if number == ALL_DATA then TAG_ALL_DATA else 0x80 + number) || number > ALL_DATA then -1 else number
  }

  lemma FieldIndexOfNarrow(tag: nat)
    ensures FieldIndex(NarrowTag(tag)) == FieldIndex(tag)
    ensures FieldIndex(tag) >= 0 <==> IsField(tag)
    ensures IsField(tag) ==> FieldIndex(tag) < 12 && TagNumber(tag) == FieldIndex(tag)
  {
    hide TagNumber;
    if IsField(tag) {
      FieldNumber(tag);
    }
  }

  lemma IndexesGrowWithTags(a: nat, b: nat)
    requires IsField(a) && IsField(b)
    ensures FieldIndex(a) < FieldIndex(b) <==> a < b
  {
  }

  function FieldOctets(field: Option<Bytes>): Bytes {
    if field.Some? then field.value else []
  }

  method CheckHeaderFields(fields: FieldArray, ghost f: map<nat, Bytes>) returns (r: Option<Deviation>)
    requires Holds(fields, f) && MANDATORY <= f.Keys
    ensures r == None <==> ConformantFields(f)
  {
    assert GOCB_REF in MANDATORY && T in MANDATORY;
    var strings := [GOCB_REF, DAT_SET, GO_ID];
    for i := 0 to 3
      invariant forall k :: 0 <= k < i ==> VisibleString129(Lookup(f, strings[k]))
    {
      var v := FieldOctets(fields[strings[i]]);
      if |v| > STRING_MAX || !Visible(v) {
        return Some(NotVisibleString129);
      }
    }
    assert VisibleString129(Lookup(f, strings[0])) && VisibleString129(Lookup(f, strings[1]))
           && VisibleString129(Lookup(f, strings[2]));
    if FieldOctets(fields[GOCB_REF]) == [] {
      return Some(EmptyGocbRef);
    }
    if |FieldOctets(fields[T])| != 8 {
      return Some(TimeSize);
    }
    var counters := [TAL, ST_NUM, SQ_NUM, CONF_REV, NUM_ENTRIES];
    for i := 0 to 5
      invariant forall k :: 0 <= k < i ==> Int32U(Lookup(f, counters[k]))
    {
      var v := FieldOctets(fields[counters[i]]);
      if |v| > U32_OCTETS || (|v| == U32_OCTETS && v[0] != 0) {
        return Some(Above32Bits);
      }
    }
    assert Int32U(Lookup(f, counters[0])) && Int32U(Lookup(f, counters[1])) && Int32U(Lookup(f, counters[2]))
           && Int32U(Lookup(f, counters[3])) && Int32U(Lookup(f, counters[4]));
    if fields[SIMULATION].Some? && |fields[SIMULATION].value| != 1 {
      return Some(BooleanSize);
    }
    if fields[NDS_COM].Some? && |fields[NDS_COM].value| != 1 {
      return Some(BooleanSize);
    }
    return None;
  }

  // After a lenient decoding: None exactly for a conformant message.
  method CheckStrict(apdu: Bytes) returns (r: Option<Deviation>)
    requires |apdu| < TWO_63 && DecodePdu(apdu).Some?
    ensures r == None <==> Conformant(apdu)
  {
    hide TlvOf, Tlvs, FieldMap, DecodeSequence, InSequence, ConformantFields, Everywhere;
    assert Suffix(apdu, 0) == apdu;
    var outer := NativeDecodeTlv(apdu, 0);
    if outer.value.end != |apdu| {
      return Some(OctetsAfterPdu);
    }
    var content := outer.value.value;
    ghost var f := FieldMap(Tlvs(content).value);
    var scanned := CheckFieldOrder(content, Tlvs(content).value);
    if scanned.Err? {
      return Some(scanned.error);
    }
    var fields := scanned.value;
    r := CheckHeaderFields(fields, f);
    if r.Some? {
      return;
    }
    if fields[ALL_DATA].None? {
      return Some(NoAllData);
    }
    FieldsLieWithin(Tlvs(content).value, |content|);
    r := CheckEntries(fields, f);
    if r.Some? {
      return;
    }
    r := CheckStrictData(fields[ALL_DATA].value);
  }

  method CheckEntries(fields: FieldArray, ghost f: map<nat, Bytes>) returns (r: Option<Deviation>)
    requires Holds(fields, f) && ReadHeader(f).Some? && ALL_DATA in f && |f[ALL_DATA]| < TWO_63
    requires DecodeSequence(f[ALL_DATA]).Ok?
    ensures r == None <==> ReadHeader(f).value.entries == |DecodeSequence(f[ALL_DATA]).value|
  {
    hide TlvOf;
    assert NUM_ENTRIES in MANDATORY;
    DecodedTiles(f[ALL_DATA]);
    var present := CountTlvs(fields[ALL_DATA].value);
    var declared := NativeDecodeUnsigned(fields[NUM_ENTRIES].value);
    if declared.Err? || declared.value != present.value {
      return Some(EntriesMismatch);
    }
    return None;
  }

  // `decode_pdu_strict`: the lenient message, refused when it does not conform.
  method NativeDecodePduStrict(apdu: Bytes) returns (r: Result<Received, Option<Deviation>>)
    requires |apdu| < TWO_63
    ensures r.Ok? <==> Conformant(apdu)
    ensures r.Ok? ==> SameMessage(r.value, DecodePdu(apdu).value)
  {
    hide DecodePdu;
    var message := NativeDecodePdu(apdu);
    if message.Err? {
      return Err(None);
    }
    var deviation := CheckStrict(apdu);
    if deviation.Some? {
      return Err(deviation);
    }
    return Ok(message.value);
  }

  // `decode_frame_strict`.
  method NativeDecodeFrameStrict(raw: Bytes) returns (r: Result<Option<(Frame, Received)>, Option<Deviation>>)
    requires |raw| < TWO_63
    ensures match ParseFrame(raw, {ETHERTYPE_GOOSE})
            case None => r == Ok(None)
            case Some(frame) =>
              && (r.Ok? <==> frame.apdu != [] && Conformant(frame.apdu))
              && (r.Ok? ==> && r.value.Some? && r.value.value.0 == frame
                            && SameMessage(r.value.value.1, DecodePdu(frame.apdu).value))
  {
    hide DecodePdu, Conformant;
    var frame := NativeParseFrame(raw, {ETHERTYPE_GOOSE});
    if frame.None? {
      return Ok(None);
    }
    if frame.value.apdu == [] {
      return Err(None);
    }
    var message := NativeDecodePduStrict(frame.value.apdu);
    return if message.Err? then Err(message.error) else Ok(Some((frame.value, message.value)));
  }

  // --- a conformant message is accepted --------------------------------------------------

  // What 8-1 asks of a message before it is encoded.
  ghost predicate ConformantPdu(p: Pdu) {
    && TypedHeader(p.header) && p.header.t.fraction < 0x100_0000
    && 0 < |p.header.gocbRef| <= STRING_MAX && Visible(p.header.gocbRef)
    && |p.header.datSet| <= STRING_MAX && Visible(p.header.datSet)
    && (p.header.goId.Some? ==> |p.header.goId.value| <= STRING_MAX && Visible(p.header.goId.value))
    && p.header.entries == |p.allData|
    && AllLeaves(p.allData, ConformantLeaf)
  }

  ghost predicate ConformantLeaf(l: Leaf) {
    Readable(l) && ConformantTlv(LeafTag(l), LeafContent(l))
  }

  // For the typed values of the tree, only the alphabet, the unused bits and raw tags are left to check.
  lemma ConformantLeaves(l: Leaf)
    requires Readable(l)
    ensures ConformantLeaf(l) <==> && (l.VisibleString? ==> Visible(l.octets))
                                   && (l.BitString? ==> l.unused <= 7)
                                   && (l.Raw? ==> ConformantTlv(l.tag, l.octets))
  {
  }

  // Every value of every depth of an encoded forest conforms.
  lemma {:induction false} EncodedConforms(vs: seq<Value>)
    requires AllLeaves(vs, ConformantLeaf) && |EncodeSequence(vs)| < TWO_64
    ensures AllLeaves(vs, Readable)
    ensures Everywhere(EncodeSequence(vs), ConformantTlv)
    decreases vs, 0
  {
    hide TlvOf, EncodeData, LeavesOf;
    if vs != [] {
      var head, rest := EncodeData(vs[0]), EncodeSequence(vs[1..]);
      EncodedConforms(vs[1..]);
      EncodedValueConforms(vs[0]);
      DataRoundTrip(vs[0], rest);
      assert (head + rest)[|head|..] == rest;
    }
  }

  lemma {:induction false} EncodedValueConforms(v: Value)
    requires LeavesOf(v, ConformantLeaf) && |EncodeData(v)| < TWO_64
    ensures LeavesOf(v, Readable)
    ensures ConformantTlv(Tag(v), Content(v))
    ensures IsContainer(Tag(v)) ==> Everywhere(Content(v), ConformantTlv)
    decreases v, 1
  {
    hide TlvOf, EncodeTlv;
    ContentFits(Tag(v), Content(v));
    if !v.Single? {
      EncodedConforms(v.members);
    }
  }

  // What conforms to 8-1 is accepted by the strict decoding once encoded.
  lemma ConformantIsAccepted(p: Pdu)
    requires ConformantPdu(p) && |EncodePdu(p)| < TWO_64
    ensures Conformant(EncodePdu(p)) && DecodePdu(EncodePdu(p)) == Some(p)
  {
    hide EncodeTlv, TlvOf, Tlvs, FieldMap, DecodePdu, DecodeSequence, FieldsOf, EncodeSequence,
         ConformantFields, InSequence, Everywhere, AllLeaves, EncodeFields, FieldsMatch;
    var content := EncodeFields(FieldsOf(p));
    var apdu := EncodePdu(p);
    ContentFits(TAG_GOOSE_PDU, content);
    EncodedFieldsConform(p, content);
    FieldContents(p);
    LastFieldFits(FieldsOf(p));
    EncodedConforms(p.allData);
    PduRoundTrip(p, []);
    assert apdu + [] == apdu;
    PduTlvsRoundTrip(content, []);
    ShortTag(TAG_GOOSE_PDU);
    TlvRoundTrip(TAG_GOOSE_PDU, content, []);
  }

  // And so is its frame, with the message it was made of, whatever padding follows.
  lemma ConformantFrameIsAccepted(p: Pdu, a: Address, padding: Bytes)
    requires ConformantPdu(p) && TypedAddress(a) && Check(a, |EncodePdu(p)|) == None
    ensures BuildFrame(a, ETHERTYPE_GOOSE, EncodePdu(p)).Ok?
    ensures var frame := ParseFrame(BuildFrame(a, ETHERTYPE_GOOSE, EncodePdu(p)).value + padding, {ETHERTYPE_GOOSE});
            && frame == Some(Frame(a.dst, a.src, a.vlan, ETHERTYPE_GOOSE, a.appId, 0, 0, EncodePdu(p)))
            && frame.value.apdu != [] && Conformant(frame.value.apdu) && DecodePdu(frame.value.apdu) == Some(p)
  {
    hide ConformantPdu, DecodePdu, ParseFrame, Conformant;
    FrameRoundTrip(a, ETHERTYPE_GOOSE, EncodePdu(p), padding, {ETHERTYPE_GOOSE});
    ConformantIsAccepted(p);
  }

  lemma EncodedFieldsConform(p: Pdu, content: Bytes)
    requires ConformantPdu(p) && content == EncodeFields(FieldsOf(p)) && |content| < TWO_64
    ensures Tlvs(content).Ok?
    ensures var f := FieldMap(Tlvs(content).value);
            InSequence(Tlvs(content).value) && ConformantFields(f) && Lookup(f, ALL_DATA) == Some(EncodeSequence(p.allData))
  {
    hide Tlvs, FieldMap, FieldsOf, AllLeaves, EncodeFields, InSequence, ConformantFields, EncodeSequence, EncodeInteger;
    EncodedFields(p);
    MatchingFieldsConform(p, FieldMap(Tlvs(content).value));
    FieldsAreInSequence(p);
    NumberedFieldsRoundTrip(FieldsOf(p));
    ReadInSequence(FieldsOf(p), Tlvs(content).value);
  }

  predicate OnlyFieldTags(fs: seq<Field>) {
    forall k :: 0 <= k < |fs| ==> IsField(fs[k].0)
  }

  lemma FieldsAreInSequence(p: Pdu)
    ensures FieldTags(FieldsOf(p)) && OnlyFieldTags(FieldsOf(p))
  {
    hide FieldsOf;
    FieldPlaces(p);
  }

  lemma {:induction false} ReadInSequence(fs: seq<Field>, ts: seq<Tlv>)
    requires FieldTags(fs) && OnlyFieldTags(fs) && ReadBack(fs, ts)
    ensures InSequence(ts)
  {
    if ts != [] {
      var n := |fs| - 1;
      ReadInSequence(fs[..n], ts[..n]);
      if n > 0 {
        IncreasingTags(fs, n - 1, n);
      }
    }
  }

  lemma IncreasingTags(fs: seq<Field>, j: nat, k: nat)
    requires FieldTags(fs) && OnlyFieldTags(fs) && j < k < |fs|
    ensures fs[j].0 < fs[k].0
  {
    assert fs[j].0 % 32 < fs[k].0 % 32;
  }

  lemma MatchingFieldsConform(p: Pdu, f: map<nat, Bytes>)
    requires ConformantPdu(p) && FieldsMatch(f, p)
    ensures ConformantFields(f)
  {
    hide AllLeaves, EncodeInteger;
    var h := p.header;
    EncodedInt32U(h.tal);
    EncodedInt32U(h.stNum);
    EncodedInt32U(h.sqNum);
    EncodedInt32U(h.confRev);
    EncodedInt32U(h.entries);
  }

  lemma EncodedInt32U(v: nat)
    requires v < TWO_32
    ensures Int32U(Some(EncodeInteger(v)))
  {
    Powers();
    HalfRange(v);
    var n := IntegerLength(v);
    if n > 5 {
      assert Pow256(5) == 256 * Pow256(4);
      PowersGrow(5, BitLength(v) / 8);
    } else if n == 5 {
      SignedRange(v);
      Leading(v, 4);
    }
  }
}
