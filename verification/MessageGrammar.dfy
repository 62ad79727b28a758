/**
 What frames and messages mean, said of their octets: an Ethernet frame by the places of its
 fields, a GOOSE message and a Sampled Values PDU by the elements they consist of. Each reader
 returns a message exactly when the octets are that message, whoever wrote them.
 */
module MessageGrammar {
  import opened Octets
  import opened Ber
  import opened Data
  import opened Grammar
  import opened Ethernet
  import Goose
  import Sv

  // --- frames ----------------------------------------------------------------------------

  // A tag of 0x8100 stands before the ethertype, with the priority in its highest three bits
  // and the VLAN in its lowest twelve.
  predicate IsFrame(raw: Bytes, ethertypes: set<nat>, f: Frame) {
    && |raw| >= 14 && f.dst == raw[..6] && f.src == raw[6..12]
    && (if raw[12] == 0x81 && raw[13] == 0x00 then
          && |raw| >= 16 && f.vlan == Some(Vlan(256 * (raw[14] as nat % 16) + raw[15], raw[14] / 32))
          && Carries(raw, 16, ethertypes, f)
        else f.vlan == None && Carries(raw, 12, ethertypes, f))
  }

  // From the ethertype on; Length counts the eight octets it is one of.
  predicate Carries(raw: Bytes, at: nat, ethertypes: set<nat>, f: Frame) {
    && |raw| >= at + 10
    && f.ethertype == 256 * (raw[at] as nat) + raw[at + 1] && f.ethertype in ethertypes
    && f.appId == 256 * (raw[at + 2] as nat) + raw[at + 3]
    && f.reserved1 == 256 * (raw[at + 6] as nat) + raw[at + 7]
    && f.reserved2 == 256 * (raw[at + 8] as nat) + raw[at + 9]
    && var length := 256 * (raw[at + 4] as nat) + raw[at + 5];
       8 <= length && at + 2 + length <= |raw| && f.apdu == raw[at + 10..at + 2 + length]
  }

  lemma FrameIsRead(raw: Bytes, ethertypes: set<nat>, f: Frame)
    ensures ParseFrame(raw, ethertypes) == Some(f) <==> IsFrame(raw, ethertypes, f)
  {
    hide ParseFrom, Carries;
    if |raw| >= 14 {
      if raw[12] != 0x81 || raw[13] != 0x00 {
        CarriedIsRead(raw, 12, None, ethertypes, f);
      } else if |raw| >= 18 {
        var vlan := Vlan(256 * (raw[14] as nat % 16) + raw[15], raw[14] / 32);
        CarriedIsRead(raw, 16, Some(vlan), ethertypes, f);
        TagIsRead(raw);
      } else {
        TooShort(raw, ethertypes, f);
      }
    }
  }

  lemma TooShort(raw: Bytes, ethertypes: set<nat>, f: Frame)
    requires |raw| < 18
    ensures !Carries(raw, 16, ethertypes, f)
  {
  }

  lemma TagIsRead(raw: Bytes)
    requires |raw| >= 16
    ensures U16(raw, 14) % 0x1000 == 256 * (raw[14] as nat % 16) + raw[15] && U16(raw, 14) / 0x2000 == raw[14] / 32
  {
  }

  lemma CarriedIsRead(raw: Bytes, at: nat, vlan: Option<Vlan>, ethertypes: set<nat>, f: Frame)
    requires 12 <= at && at + 2 <= |raw|
    ensures ParseFrom(raw, at + 2, vlan, U16(raw, at), ethertypes) == Some(f) <==>
              f.dst == raw[..6] && f.src == raw[6..12] && f.vlan == vlan && Carries(raw, at, ethertypes, f)
  {
  }

  // A frame is built exactly when there are octets that carry the address and the APDU, and it
  // is such octets: what is refused no frame could hold.
  lemma FrameIsWritten(a: Address, ethertype: nat, apdu: Bytes)
    requires TypedAddress(a) && ethertype < 0x1_0000 && (a.vlan == None ==> ethertype != ETHERTYPE_VLAN)
    ensures var f := Frame(a.dst, a.src, a.vlan, ethertype, a.appId, 0, 0, apdu);
            && (BuildFrame(a, ethertype, apdu).Ok? ==> IsFrame(BuildFrame(a, ethertype, apdu).value, {ethertype}, f))
            && (BuildFrame(a, ethertype, apdu).Err? ==> forall raw: Bytes :: !IsFrame(raw, {ethertype}, f))
  {
    hide ParseFrame, HeaderOctets;
    var f := Frame(a.dst, a.src, a.vlan, ethertype, a.appId, 0, 0, apdu);
    if Check(a, |apdu|) == None {
      FrameRoundTrip(a, ethertype, apdu, [], {ethertype});
      var raw := BuildFrame(a, ethertype, apdu).value;
      assert raw + [] == raw;
      FrameIsRead(raw, {ethertype}, f);
    }
  }

  // --- fields ----------------------------------------------------------------------------

  // The number an identifier carries: the low five bits of its first octet, or the low seven of
  // each of the others.
  ghost predicate HasNumber(identifier: Bytes, n: nat)
    requires identifier != []
  {
    if identifier[0] % 32 != 31 then n == identifier[0] % 32 else HasDigits(identifier[1..], 128, n)
  }

  lemma NumberIsRead(identifier: Bytes, n: nat)
    requires IsIdentifier(identifier)
    ensures HasNumber(identifier, n) <==> Goose.TagNumber(FromBE(identifier)) == n
  {
    hide IsIdentifier, HasDigits, TagOf, Goose.TagNumber;
    assert identifier + [] == identifier;
    TagOfIdentifier(identifier, []);
    Goose.ReadNumber(identifier);
    assert identifier[1..|identifier|] == identifier[1..];
    SevenBitsAreRead(identifier[1..], n);
  }

  lemma {:induction false} SevenBitsAreRead(s: Bytes, n: nat)
    ensures HasDigits(s, 128, n) <==> Goose.SevenBits(s) == n
  {
    hide HasDigits;
    if s == [] {
      NoDigits(128, n);
    } else {
      LastDigit(s, 128, n);
      SevenBitsAreRead(s[..|s| - 1], n / 128);
    }
  }

  // The content of the last of the elements whose tag has this key, if there is one.
  ghost predicate LastIs(ts: seq<Tlv>, key: nat -> nat, n: nat, content: Option<Bytes>) {
    match content
    case None => forall k :: 0 <= k < |ts| ==> key(ts[k].tag) != n
    case Some(c) =>
      exists k :: 0 <= k < |ts| && key(ts[k].tag) == n && ts[k].value == c
                  && forall j :: k < j < |ts| ==> key(ts[j].tag) != n
  }

  lemma {:induction false} LastIsOne(ts: seq<Tlv>, key: nat -> nat, n: nat, a: Option<Bytes>, b: Option<Bytes>)
    requires LastIs(ts, key, n, a) && LastIs(ts, key, n, b)
    ensures a == b
  {
    if a.Some? && b.Some? {
      var i :| 0 <= i < |ts| && key(ts[i].tag) == n && ts[i].value == a.value
               && forall j :: i < j < |ts| ==> key(ts[j].tag) != n;
      var k :| 0 <= k < |ts| && key(ts[k].tag) == n && ts[k].value == b.value
               && forall j :: k < j < |ts| ==> key(ts[j].tag) != n;
      assert !(i < k) && !(k < i);
    }
  }

  // The same after one more element.
  lemma LastAfter(ts: seq<Tlv>, key: nat -> nat, n: nat, before: Option<Bytes>)
    requires ts != [] && LastIs(ts[..|ts| - 1], key, n, before)
    ensures LastIs(ts, key, n, if key(ts[|ts| - 1].tag) == n then Some(ts[|ts| - 1].value) else before)
  {
    var (init, last) := (ts[..|ts| - 1], ts[|ts| - 1]);
    if key(last.tag) != n && before.Some? {
      var k :| 0 <= k < |init| && key(init[k].tag) == n && init[k].value == before.value
               && forall j :: k < j < |init| ==> key(init[j].tag) != n;
      forall j | k < j < |ts|
        ensures key(ts[j].tag) != n
      {
        assert j < |init| ==> key(init[j].tag) != n;
      }
      assert key(ts[k].tag) == n && ts[k].value == before.value;
    }
    if before.None? {
      forall k | 0 <= k < |init|
        ensures key(ts[k].tag) != n
      {
        assert key(init[k].tag) != n;
      }
    }
  }

  // --- GOOSE -----------------------------------------------------------------------------

  // At least one octet, whatever leading zeros, of a number below 2^64.
  ghost predicate CounterIs(field: Option<Bytes>, v: nat) {
    field.Some? && field.value != [] && HasDigits(field.value, 256, v) && v < 0x1_0000_0000_0000_0000
  }

  // TRUE is any octet but 0; no field and no octet are FALSE.
  predicate FlagIs(field: Option<Bytes>, flag: bool) {
    flag <==> field.Some? && field.value != [] && field.value[0] != 0
  }

  // The header fields by number, [3], [7] and [9] optional.
  ghost predicate HeaderIs(f: seq<Option<Bytes>>, h: Goose.Header)
    requires |f| == 12
  {
    && f[0] == Some(h.gocbRef) && CounterIs(f[1], h.tal) && f[2] == Some(h.datSet) && f[3] == h.goId
    && f[4].Some? && IsTime(f[4].value, h.t) && CounterIs(f[5], h.stNum) && CounterIs(f[6], h.sqNum)
    && FlagIs(f[7], h.simulation) && CounterIs(f[8], h.confRev) && FlagIs(f[9], h.ndsCom)
    && CounterIs(f[10], h.entries)
  }

  // An element 61 whose elements hold the fields, whatever their order, class and form; no
  // field [11] is no value.
  ghost predicate IsGoose(apdu: Bytes, p: Goose.Pdu, t: Tlv, ts: seq<Tlv>, f: seq<Option<Bytes>>) {
    && BeginsWith(apdu, t) && t.tag == 0x61 && ConsistsOf(t.value, ts)
    && FieldsAre(ts, f) && HeaderIs(f, p.header)
    && Spells(if f[11].Some? then f[11].value else [], p.allData)
  }

  ghost predicate FieldsAre(ts: seq<Tlv>, f: seq<Option<Bytes>>) {
    |f| == 12 && forall n :: 0 <= n < 12 ==> LastIs(ts, Goose.TagNumber, n, f[n])
  }

  lemma {:induction false} FieldIsLast(ts: seq<Tlv>, n: nat)
    ensures LastIs(ts, Goose.TagNumber, n, Goose.Lookup(Goose.FieldMap(ts), n))
  {
    hide Goose.TagNumber;
    if ts != [] {
      FieldIsLast(ts[..|ts| - 1], n);
      LastAfter(ts, Goose.TagNumber, n, Goose.Lookup(Goose.FieldMap(ts[..|ts| - 1]), n));
    }
  }

  function GooseFields(ts: seq<Tlv>): (f: seq<Option<Bytes>>)
    ensures |f| == 12
  {
    seq(12, n requires 0 <= n => Goose.Lookup(Goose.FieldMap(ts), n))
  }

  lemma FieldsAreRead(ts: seq<Tlv>, f: seq<Option<Bytes>>)
    ensures FieldsAre(ts, f) <==> f == GooseFields(ts)
  {
    hide LastIs, Goose.FieldMap, Goose.Lookup, Goose.TagNumber;
    forall n | 0 <= n < 12
      ensures LastIs(ts, Goose.TagNumber, n, GooseFields(ts)[n])
    {
      FieldIsLast(ts, n);
    }
    if FieldsAre(ts, f) {
      forall n | 0 <= n < 12
        ensures f[n] == GooseFields(ts)[n]
      {
        LastIsOne(ts, Goose.TagNumber, n, f[n], GooseFields(ts)[n]);
      }
    }
  }

  lemma CounterIsRead(field: Option<Bytes>, v: nat)
    ensures CounterIs(field, v) <==> field.Some? && Goose.Counter(field.value) == Some(v)
  {
    hide HasDigits;
    if field.Some? {
      DigitsAreRead(field.value, v);
    }
  }

  lemma MandatoryAreThere(f: map<nat, Bytes>)
    ensures Goose.MANDATORY <= f.Keys <==>
              0 in f && 1 in f && 2 in f && 4 in f && 5 in f && 6 in f && 8 in f && 10 in f
  {
    if Goose.MANDATORY <= f.Keys {
      assert forall n :: n in Goose.MANDATORY ==> n in f;
      assert 0 in Goose.MANDATORY && 1 in Goose.MANDATORY && 2 in Goose.MANDATORY && 4 in Goose.MANDATORY;
      assert 5 in Goose.MANDATORY && 6 in Goose.MANDATORY && 8 in Goose.MANDATORY && 10 in Goose.MANDATORY;
    }
  }

  lemma HeaderIsRead(ts: seq<Tlv>, h: Goose.Header)
    ensures Goose.ReadHeader(Goose.FieldMap(ts)) == Some(h) <==> HeaderIs(GooseFields(ts), h)
  {
    hide CounterIs, IsTime, Goose.Counter, DecodeUtc, Goose.FieldMap;
    var m, f := Goose.FieldMap(ts), GooseFields(ts);
    MandatoryAreThere(m);
    CounterIsRead(f[1], h.tal);
    CounterIsRead(f[5], h.stNum);
    CounterIsRead(f[6], h.sqNum);
    CounterIsRead(f[8], h.confRev);
    CounterIsRead(f[10], h.entries);
    if f[4].Some? {
      TimeIsRead(f[4].value, h.t);
    }
  }

  // Octets are decoded as a message exactly when they are that message.
  lemma GooseIsRead(apdu: Bytes, p: Goose.Pdu)
    ensures Goose.DecodePdu(apdu) == Some(p) <==> exists t, ts, f :: IsGoose(apdu, p, t, ts, f)
  {
    hide *;
    if Goose.DecodePdu(apdu) == Some(p) {
      var t, ts := GooseParts(apdu);
      GooseSays(t, ts, apdu, p);
      assert IsGoose(apdu, p, t, ts, GooseFields(ts));
    }
    if exists t, ts, f :: IsGoose(apdu, p, t, ts, f) {
      var t, ts, f :| IsGoose(apdu, p, t, ts, f);
      GooseMeans(apdu, p, t, ts, f);
    }
  }

  lemma GooseParts(apdu: Bytes) returns (t: Tlv, ts: seq<Tlv>)
    requires Goose.DecodePdu(apdu).Some?
    ensures TlvOf(apdu) == Ok(t) && t.tag == 0x61 && Tlvs(t.value) == Ok(ts)
  {
    hide TlvOf, Tlvs, Goose.FieldMap, Goose.ReadHeader;
    t := TlvOf(apdu).value;
    ts := Tlvs(t.value).value;
  }

  lemma DecodedAs(apdu: Bytes, t: Tlv, ts: seq<Tlv>, p: Goose.Pdu)
    requires TlvOf(apdu) == Ok(t) && Tlvs(t.value) == Ok(ts)
    ensures Goose.DecodePdu(apdu) == Some(p) <==>
              && t.tag == 0x61 && Goose.ReadHeader(Goose.FieldMap(ts)) == Some(p.header)
              && DecodeSequence(if GooseFields(ts)[11].Some? then GooseFields(ts)[11].value else []) == Ok(p.allData)
  {
    hide TlvOf, Tlvs, Goose.FieldMap, Goose.ReadHeader, DecodeSequence;
    assert Goose.AllDataOf(Goose.FieldMap(ts)) == if GooseFields(ts)[11].Some? then GooseFields(ts)[11].value else [];
  }

  lemma GooseSays(t: Tlv, ts: seq<Tlv>, apdu: Bytes, p: Goose.Pdu)
    requires TlvOf(apdu) == Ok(t) && t.tag == 0x61 && Tlvs(t.value) == Ok(ts)
    ensures Goose.DecodePdu(apdu) == Some(p) <==> IsGoose(apdu, p, t, ts, GooseFields(ts))
  {
    hide TlvOf, Tlvs, Goose.FieldMap, Goose.ReadHeader, DecodeSequence, BeginsWith, ConsistsOf, FieldsAre, HeaderIs,
         Spells, Goose.DecodePdu, GooseFields;
    var f := GooseFields(ts);
    ElementIsRead(apdu, t);
    ElementsAreRead(t.value, ts);
    FieldsAreRead(ts, f);
    HeaderIsRead(ts, p.header);
    SpellingIsRead(if f[11].Some? then f[11].value else [], p.allData);
    DecodedAs(apdu, t, ts, p);
  }

  lemma GooseMeans(apdu: Bytes, p: Goose.Pdu, t: Tlv, ts: seq<Tlv>, f: seq<Option<Bytes>>)
    requires IsGoose(apdu, p, t, ts, f)
    ensures Goose.DecodePdu(apdu) == Some(p)
  {
    hide TlvOf, Tlvs, Goose.FieldMap, Goose.ReadHeader, DecodeSequence, BeginsWith, ConsistsOf, FieldsAre, HeaderIs,
         Spells, Goose.DecodePdu, GooseFields;
    ElementIsRead(apdu, t);
    ElementsAreRead(t.value, ts);
    FieldsAreRead(ts, f);
    GooseSays(t, ts, apdu, p);
  }

  // A message is written with its fields in increasing order, the counters in the fewest octets,
  // TRUE as FF.
  lemma GooseIsWritten(p: Goose.Pdu)
    ensures Goose.FieldTags(Goose.FieldsOf(p))
    ensures var fs, h := Goose.FieldsOf(p), p.header;
            forall k :: 0 <= k < |fs| ==>
              match fs[k].0
              case 0x81 => IsShortest(fs[k].1, h.tal)
              case 0x85 => IsShortest(fs[k].1, h.stNum)
              case 0x86 => IsShortest(fs[k].1, h.sqNum)
              case 0x87 => fs[k].1 == [if h.simulation then 0xFF else 0x00]
              case 0x88 => IsShortest(fs[k].1, h.confRev)
              case 0x89 => fs[k].1 == [if h.ndsCom then 0xFF else 0x00]
              case 0x8A => IsShortest(fs[k].1, h.entries)
              case _ => fs[k].0 in {0x80, 0x82, 0x83, 0x84, 0xAB}
  {
    hide IsShortest, EncodeInteger, EncodeUtc;
    var h := p.header;
    Goose.FieldPlaces(p);
    IntegerIsShortest(h.tal);
    IntegerIsShortest(h.stNum);
    IntegerIsShortest(h.sqNum);
    IntegerIsShortest(h.confRev);
    IntegerIsShortest(h.entries);
  }

  // --- Sampled Values --------------------------------------------------------------------

  // A number of exactly so many octets.
  ghost predicate NumberIs(field: Option<Bytes>, size: nat, v: nat) {
    field.Some? && |field.value| == size && HasDigits(field.value, 256, v)
  }

  ghost predicate NumberOrNone(field: Option<Bytes>, size: nat, v: Option<nat>) {
    if v.None? then field.None? else NumberIs(field, size, v.value)
  }

  // The fields [0] to [9] of an ASDU.
  ghost predicate AsduSays(f: seq<Option<Bytes>>, a: Sv.Asdu)
    requires |f| == 10
  {
    && f[0] == Some(a.svId) && f[1] == a.datSet && NumberIs(f[2], 2, a.smpCnt) && NumberIs(f[3], 4, a.confRev)
    && (if a.refrTm.None? then f[4].None? else f[4].Some? && IsTime(f[4].value, a.refrTm.value))
    && NumberIs(f[5], 1, a.smpSynch) && NumberOrNone(f[6], 2, a.smpRate) && f[7] == Some(a.sample)
    && NumberOrNone(f[8], 2, a.smpMod) && f[9] == a.gmIdentity
  }

  function Plain(tag: nat): nat {
    tag
  }

  ghost predicate TagsAre(ts: seq<Tlv>, f: seq<Option<Bytes>>) {
    |f| == 10 && forall n :: 0 <= n < 10 ==> LastIs(ts, Plain, 0x80 + n, f[n])
  }

  ghost predicate IsAsdu(content: Bytes, a: Sv.Asdu) {
    exists ts, f :: ConsistsOf(content, ts) && TagsAre(ts, f) && AsduSays(f, a)
  }

  // Elements 30, each an ASDU.
  ghost predicate AreAsdus(content: Bytes, asdus: seq<Sv.Asdu>) {
    exists ts: seq<Tlv> :: ConsistsOf(content, ts) && |ts| == |asdus|
                 && forall k :: 0 <= k < |ts| ==> ts[k].tag == 0x30 && IsAsdu(ts[k].value, asdus[k])
  }

  // The ASDUs of every element A2, one after the other; elements 80 are not empty.
  ghost predicate Collected(ts: seq<Tlv>, asdus: seq<Sv.Asdu>) {
    if ts == [] then asdus == []
    else
      var (init, last) := (ts[..|ts| - 1], ts[|ts| - 1]);
      && (last.tag == 0x80 ==> last.value != [])
      && (if last.tag == 0xA2 then
            exists n :: 0 <= n <= |asdus| && Collected(init, asdus[..n]) && AreAsdus(last.value, asdus[n..])
          else Collected(init, asdus))
  }

  // An element 60; the last element 80 is the number of ASDUs, the last A1 the security.
  ghost predicate IsSv(apdu: Bytes, p: Sv.SvPdu, t: Tlv, ts: seq<Tlv>) {
    && BeginsWith(apdu, t) && t.tag == 0x60 && ConsistsOf(t.value, ts) && Collected(ts, p.asdus)
    && (exists count :: LastIs(ts, Plain, 0x80, Some(count)) && HasDigits(count, 256, |p.asdus|))
    && LastIs(ts, Plain, 0xA1, p.security)
  }

  lemma NumberSays(field: Option<Bytes>, size: nat, v: nat)
    ensures NumberIs(field, size, v) <==> field.Some? && |field.value| == size && FromBE(field.value) == v
  {
    hide HasDigits;
    if field.Some? {
      DigitsAreRead(field.value, v);
    }
  }

  lemma NumberOrNoneSays(field: Option<Bytes>, size: nat, v: Option<nat>)
    ensures NumberOrNone(field, size, v) <==> Sv.FixedOrAbsent(field, size) && Sv.Number(field) == v
  {
    hide NumberIs;
    if v.Some? {
      NumberSays(field, size, v.value);
    }
  }

  lemma SlotsSay(f: seq<Option<Bytes>>, a: Sv.Asdu)
    requires |f| == 10
    ensures Sv.AsduOf(f) == Some(a) <==> AsduSays(f, a)
  {
    hide NumberIs, NumberOrNone, IsTime, DecodeUtc, FromBE, Sv.Number;
    NumberSays(f[2], 2, a.smpCnt);
    NumberSays(f[3], 4, a.confRev);
    NumberSays(f[5], 1, a.smpSynch);
    NumberOrNoneSays(f[6], 2, a.smpRate);
    NumberOrNoneSays(f[8], 2, a.smpMod);
    if f[4].Some? && a.refrTm.Some? {
      TimeIsRead(f[4].value, a.refrTm.value);
    }
  }

  lemma {:induction false} TagIsLast(ts: seq<Tlv>, n: nat)
    ensures LastIs(ts, Plain, 0x80 + n, Sv.FieldN(Sv.ByTag(ts), n))
  {
    if ts != [] {
      TagIsLast(ts[..|ts| - 1], n);
      LastAfter(ts, Plain, 0x80 + n, Sv.FieldN(Sv.ByTag(ts[..|ts| - 1]), n));
    }
  }

  lemma TagsAreRead(ts: seq<Tlv>, f: seq<Option<Bytes>>)
    ensures TagsAre(ts, f) <==> f == Sv.Slots(Sv.ByTag(ts))
  {
    hide LastIs, Sv.ByTag, Sv.FieldN;
    var slots := Sv.Slots(Sv.ByTag(ts));
    forall n | 0 <= n < 10
      ensures LastIs(ts, Plain, 0x80 + n, slots[n])
    {
      TagIsLast(ts, n);
    }
    if TagsAre(ts, f) {
      forall n | 0 <= n < 10
        ensures f[n] == slots[n]
      {
        LastIsOne(ts, Plain, 0x80 + n, f[n], slots[n]);
      }
    }
  }

  lemma AsduIsRead(content: Bytes, a: Sv.Asdu)
    ensures Sv.DecodeAsdu(content) == Some(a) <==> IsAsdu(content, a)
  {
    hide Tlvs, Sv.ByTag, Sv.FieldN, LastIs, Sv.AsduOf, ConsistsOf, AsduSays;
    if Sv.DecodeAsdu(content) == Some(a) {
      var ts := Tlvs(content).value;
      var f := Sv.Slots(Sv.ByTag(ts));
      ElementsAreRead(content, ts);
      TagsAreRead(ts, f);
      SlotsSay(f, a);
      assert ConsistsOf(content, ts) && TagsAre(ts, f) && AsduSays(f, a);
    }
    if IsAsdu(content, a) {
      var ts, f :| ConsistsOf(content, ts) && TagsAre(ts, f) && AsduSays(f, a);
      ElementsAreRead(content, ts);
      TagsAreRead(ts, f);
      SlotsSay(f, a);
    }
  }

  lemma {:induction false} AsManyItems(ts: seq<Tlv>)
    ensures Sv.DecodeItems(ts).Some? ==> |Sv.DecodeItems(ts).value| == |ts|
  {
    hide Sv.DecodeAsdu;
    if ts != [] {
      AsManyItems(ts[..|ts| - 1]);
    }
  }

  lemma {:induction false} ItemsAreRead(ts: seq<Tlv>, asdus: seq<Sv.Asdu>)
    ensures Sv.DecodeItems(ts) == Some(asdus) <==>
              |ts| == |asdus| && forall k :: 0 <= k < |ts| ==> ts[k].tag == 0x30 && IsAsdu(ts[k].value, asdus[k])
  {
    hide IsAsdu, Sv.DecodeAsdu;
    if ts != [] {
      var n := |ts| - 1;
      if Sv.DecodeItems(ts) == Some(asdus) {
        AsManyItems(ts);
        AsManyItems(ts[..n]);
        assert asdus[..n] == Sv.DecodeItems(ts[..n]).value;
        ItemsAreRead(ts[..n], asdus[..n]);
        AsduIsRead(ts[n].value, asdus[n]);
        forall k | 0 <= k < n
          ensures ts[k].tag == 0x30 && IsAsdu(ts[k].value, asdus[k])
        {
          assert ts[..n][k] == ts[k] && asdus[..n][k] == asdus[k];
        }
      }
      if |ts| == |asdus| && forall k :: 0 <= k < |ts| ==> ts[k].tag == 0x30 && IsAsdu(ts[k].value, asdus[k]) {
        ItemsAreRead(ts[..n], asdus[..n]);
        AsduIsRead(ts[n].value, asdus[n]);
        assert asdus == asdus[..n] + [asdus[n]];
      }
    }
  }

  lemma AsdusAreRead(content: Bytes, asdus: seq<Sv.Asdu>)
    ensures Sv.DecodeSeq(content) == Some(asdus) <==> AreAsdus(content, asdus)
  {
    hide Tlvs, ConsistsOf, IsAsdu, Sv.DecodeItems;
    if Sv.DecodeSeq(content) == Some(asdus) {
      var ts := Tlvs(content).value;
      ElementsAreRead(content, ts);
      ItemsAreRead(ts, asdus);
      assert ConsistsOf(content, ts);
    }
    if AreAsdus(content, asdus) {
      var ts: seq<Tlv> :| ConsistsOf(content, ts) && |ts| == |asdus|
                && forall k :: 0 <= k < |ts| ==> ts[k].tag == 0x30 && IsAsdu(ts[k].value, asdus[k]);
      ElementsAreRead(content, ts);
      ItemsAreRead(ts, asdus);
    }
  }

  // What was absorbed is what the elements say.
  lemma {:induction false} AbsorbedIsSaid(ts: seq<Tlv>)
    ensures Sv.Absorb(ts).Some? ==>
              var p := Sv.Absorb(ts).value;
              && LastIs(ts, Plain, 0x80, p.noAsdu) && LastIs(ts, Plain, 0xA1, p.security) && Collected(ts, p.asdus)
  {
    hide LastIs, AreAsdus, Sv.DecodeSeq;
    if ts == [] {
      NoneIsLast();
    } else {
      var (init, last) := (ts[..|ts| - 1], ts[|ts| - 1]);
      AbsorbedIsSaid(init);
      if Sv.Absorb(ts).Some? {
        var (p, q) := (Sv.Absorb(init).value, Sv.Absorb(ts).value);
        LastAfter(ts, Plain, 0x80, p.noAsdu);
        LastAfter(ts, Plain, 0xA1, p.security);
        if last.tag == 0xA2 {
          var n := |p.asdus|;
          assert q.asdus[..n] == p.asdus && q.asdus[n..] == Sv.DecodeSeq(last.value).value;
          AsdusAreRead(last.value, q.asdus[n..]);
        }
      }
    }
  }

  lemma NoneIsLast()
    ensures LastIs([], Plain, 0x80, None) && LastIs([], Plain, 0xA1, None)
  {
  }

  // Elements that can be collected are absorbed, in one way.
  lemma {:induction false} CollectedIsAbsorbed(ts: seq<Tlv>, asdus: seq<Sv.Asdu>)
    requires Collected(ts, asdus)
    ensures Sv.Absorb(ts).Some? && Sv.Absorb(ts).value.asdus == asdus
  {
    hide AreAsdus, Sv.DecodeSeq;
    if ts != [] {
      var (init, last) := (ts[..|ts| - 1], ts[|ts| - 1]);
      if last.tag == 0xA2 {
        var n :| 0 <= n <= |asdus| && Collected(init, asdus[..n]) && AreAsdus(last.value, asdus[n..]);
        CollectedIsAbsorbed(init, asdus[..n]);
        AsdusAreRead(last.value, asdus[n..]);
        assert asdus == asdus[..n] + asdus[n..];
      } else {
        CollectedIsAbsorbed(init, asdus);
      }
    }
  }

  // Octets are decoded as a PDU exactly when they are that PDU.
  lemma SvIsRead(apdu: Bytes, p: Sv.SvPdu)
    ensures Sv.DecodeSvPdu(apdu) == Some(p) <==> exists t, ts :: IsSv(apdu, p, t, ts)
  {
    if Sv.DecodeSvPdu(apdu) == Some(p) {
      var t, ts := SvSays(apdu, p);
      assert IsSv(apdu, p, t, ts);
    }
    if exists t, ts :: IsSv(apdu, p, t, ts) {
      var t, ts :| IsSv(apdu, p, t, ts);
      SvMeans(apdu, p, t, ts);
    }
  }

  lemma SvSays(apdu: Bytes, p: Sv.SvPdu) returns (t: Tlv, ts: seq<Tlv>)
    requires Sv.DecodeSvPdu(apdu) == Some(p)
    ensures IsSv(apdu, p, t, ts)
  {
    hide TlvOf, Tlvs, BeginsWith, ConsistsOf, Collected, LastIs, Sv.Absorb, HasDigits;
    t := TlvOf(apdu).value;
    ts := Tlvs(t.value).value;
    ElementIsRead(apdu, t);
    ElementsAreRead(t.value, ts);
    AbsorbedIsSaid(ts);
    DigitsAreRead(Sv.Absorb(ts).value.noAsdu.value, |p.asdus|);
    assert LastIs(ts, Plain, 0x80, Some(Sv.Absorb(ts).value.noAsdu.value));
  }

  lemma SvMeans(apdu: Bytes, p: Sv.SvPdu, t: Tlv, ts: seq<Tlv>)
    requires IsSv(apdu, p, t, ts)
    ensures Sv.DecodeSvPdu(apdu) == Some(p)
  {
    hide TlvOf, Tlvs, BeginsWith, ConsistsOf, Collected, LastIs, Sv.Absorb, HasDigits;
    ElementIsRead(apdu, t);
    ElementsAreRead(t.value, ts);
    CollectedIsAbsorbed(ts, p.asdus);
    AbsorbedIsSaid(ts);
    var count :| LastIs(ts, Plain, 0x80, Some(count)) && HasDigits(count, 256, |p.asdus|);
    DigitsAreRead(count, |p.asdus|);
    LastIsOne(ts, Plain, 0x80, Some(count), Sv.Absorb(ts).value.noAsdu);
    LastIsOne(ts, Plain, 0xA1, p.security, Sv.Absorb(ts).value.security);
  }
}
