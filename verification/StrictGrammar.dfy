/**
 What a GOOSE message must be for the strict decoder (IEC 61850-8-1), said of its octets: a
 message with nothing after it, its fields in sequence, each of the size and the alphabet of
 its type, and so each value of allData at any depth.
 */
module StrictGrammar {
  import opened Octets
  import opened Ber
  import opened TlvLists
  import opened Data
  import opened FlatReader
  import opened Grammar
  import opened MessageGrammar
  import Goose
  import opened GooseStrict

  predicate Printable(s: Bytes) {
    forall k :: 0 <= k < |s| ==> ' ' as int <= s[k] <= '~' as int
  }

  // A value of the CHOICE `Data`, whatever its members: the primitive types by their tags, an
  // array or a structure.
  predicate IsStrictValue(tag: nat, content: Bytes) {
    match tag
    case 0xA1 => true
    case 0xA2 => true
    case 0x83 => |content| == 1
    case 0x84 => content != [] && content[0] <= 7
    case 0x85 => content != []
    case 0x86 => content != []
    case 0x87 => |content| == 5 || |content| == 9
    case 0x8A => Printable(content)
    case 0x8C => |content| == 4 || |content| == 6
    case 0x91 => |content| == 8
    case _ => tag == 0x80 || 0x83 <= tag <= 0x9E
  }

  ghost predicate AreStrictValues(s: Bytes)
    decreases |s|
  {
    s == [] || exists t: Tlv ::
      && BeginsWith(s, t) && |t.value| < |s| && 0 < t.end <= |s| && IsStrictValue(t.tag, t.value)
      && (t.tag == 0xA1 || t.tag == 0xA2 ==> AreStrictValues(t.value)) && AreStrictValues(s[t.end..])
  }

  predicate IsStrictString(field: Option<Bytes>) {
    field.Some? ==> |field.value| <= 129 && Printable(field.value)
  }

  // An INT32U: in the five octets its sign may take.
  predicate IsStrictCounter(field: Option<Bytes>, v: nat) {
    field.Some? && |field.value| <= 5 && v < 0x1_0000_0000
  }

  ghost predicate IsStrict(apdu: Bytes, p: Goose.Pdu, t: Tlv, ts: seq<Tlv>, f: seq<Option<Bytes>>) {
    var h := p.header;
    && IsGoose(apdu, p, t, ts, f) && t.end == |apdu|
    && (forall i :: 0 <= i < |ts| ==> 0x80 <= ts[i].tag <= 0x8A || ts[i].tag == 0xAB)
    && (forall i, j :: 0 <= i < j < |ts| ==> ts[i].tag < ts[j].tag)
    && f[0] != Some([]) && IsStrictString(f[0]) && IsStrictString(f[2]) && IsStrictString(f[3])
    && IsStrictCounter(f[1], h.tal) && f[4].Some? && |f[4].value| == 8 && IsStrictCounter(f[5], h.stNum)
    && IsStrictCounter(f[6], h.sqNum) && (f[7].Some? ==> |f[7].value| == 1) && IsStrictCounter(f[8], h.confRev)
    && (f[9].Some? ==> |f[9].value| == 1) && IsStrictCounter(f[10], h.entries)
    && f[11].Some? && h.entries == |p.allData| && AreStrictValues(f[11].value)
  }

  lemma ValueIsChecked(tag: nat, content: Bytes)
    ensures ConformantTlv(tag, content) <==> IsStrictValue(tag, content)
  {
  }

  lemma {:induction false} ValuesAreChecked(s: Bytes)
    ensures Everywhere(s, ConformantTlv) <==> AreStrictValues(s)
    decreases |s|
  {
    hide TlvOf, BeginsWith, ConformantTlv, IsStrictValue;
    if s != [] {
      if Everywhere(s, ConformantTlv) {
        var t := TlvOf(s).value;
        ElementIsRead(s, t);
        ValueIsChecked(t.tag, t.value);
        ValuesAreChecked(t.value);
        ValuesAreChecked(s[t.end..]);
        assert BeginsWith(s, t) && IsStrictValue(t.tag, t.value);
      }
      if AreStrictValues(s) {
        var t: Tlv :|
          && BeginsWith(s, t) && |t.value| < |s| && 0 < t.end <= |s| && IsStrictValue(t.tag, t.value)
          && (t.tag == 0xA1 || t.tag == 0xA2 ==> AreStrictValues(t.value)) && AreStrictValues(s[t.end..]);
        ElementIsRead(s, t);
        ValueIsChecked(t.tag, t.value);
        ValuesAreChecked(t.value);
        ValuesAreChecked(s[t.end..]);
      }
    }
  }

  lemma {:induction false} SequenceIsChecked(ts: seq<Tlv>)
    ensures InSequence(ts) <==>
              && (forall i :: 0 <= i < |ts| ==> 0x80 <= ts[i].tag <= 0x8A || ts[i].tag == 0xAB)
              && forall i, j :: 0 <= i < j < |ts| ==> ts[i].tag < ts[j].tag
  {
    if ts != [] {
      var n := |ts| - 1;
      var init := ts[..n];
      SequenceIsChecked(init);
      if InSequence(ts) {
        forall i, j | 0 <= i < j < |ts|
          ensures ts[i].tag < ts[j].tag
        {
          assert init[i] == ts[i];
          if j < n {
            assert init[j] == ts[j];
          } else if i < n - 1 {
            assert init[n - 1] == ts[n - 1];
            assert init[i].tag < init[n - 1].tag;
          }
        }
        forall i | 0 <= i < |ts|
          ensures 0x80 <= ts[i].tag <= 0x8A || ts[i].tag == 0xAB
        {
          assert i < n ==> init[i] == ts[i];
        }
      }
    }
  }

  // Four octets, or five that begin with 0, are those of a number of 32 bits.
  lemma CounterIsChecked(field: Option<Bytes>, v: nat)
    requires field.Some? && HasDigits(field.value, 256, v)
    ensures Int32U(field) <==> IsStrictCounter(field, v)
  {
    hide HasDigits;
    var s := field.value;
    DigitsAreRead(s, v);
    FromBEBound(s);
    Powers();
    if |s| <= 4 {
      PowersGrow(|s|, 4);
    } else if |s| == 5 {
      HeadValue(s);
      FromBEBound(s[1..]);
    }
  }

  lemma FieldsAreChecked(ts: seq<Tlv>, h: Goose.Header)
    requires HeaderIs(GooseFields(ts), h)
    ensures var f := GooseFields(ts);
            ConformantFields(Goose.FieldMap(ts)) <==>
              && f[0] != Some([]) && IsStrictString(f[0]) && IsStrictString(f[2]) && IsStrictString(f[3])
              && IsStrictCounter(f[1], h.tal) && f[4].Some? && |f[4].value| == 8 && IsStrictCounter(f[5], h.stNum)
              && IsStrictCounter(f[6], h.sqNum) && (f[7].Some? ==> |f[7].value| == 1) && IsStrictCounter(f[8], h.confRev)
              && (f[9].Some? ==> |f[9].value| == 1) && IsStrictCounter(f[10], h.entries)
  {
    hide Goose.FieldMap, HasDigits, IsTime, Int32U, IsStrictCounter;
    var f := GooseFields(ts);
    CounterIsChecked(f[1], h.tal);
    CounterIsChecked(f[5], h.stNum);
    CounterIsChecked(f[6], h.sqNum);
    CounterIsChecked(f[8], h.confRev);
    CounterIsChecked(f[10], h.entries);
  }

  // The messages the strict decoder accepts are exactly the strict ones.
  lemma StrictIsChecked(apdu: Bytes)
    ensures Conformant(apdu) <==> exists p, t, ts, f :: IsStrict(apdu, p, t, ts, f)
  {
    hide Conformant, IsStrict;
    if Conformant(apdu) {
      var p, t, ts := ConformantParts(apdu);
      StrictIs(apdu, p, t, ts);
    }
    if exists p, t, ts, f :: IsStrict(apdu, p, t, ts, f) {
      var p, t, ts, f :| IsStrict(apdu, p, t, ts, f);
      StrictParts(apdu, p, t, ts, f);
      StrictIs(apdu, p, t, ts);
    }
  }

  lemma ConformantParts(apdu: Bytes) returns (p: Goose.Pdu, t: Tlv, ts: seq<Tlv>)
    requires Conformant(apdu)
    ensures Goose.DecodePdu(apdu) == Some(p) && TlvOf(apdu) == Ok(t) && t.tag == 0x61 && Tlvs(t.value) == Ok(ts)
  {
    hide Goose.DecodePdu, TlvOf, Tlvs, InSequence, ConformantFields;
    p := Goose.DecodePdu(apdu).value;
    t, ts := GooseParts(apdu);
  }

  lemma StrictParts(apdu: Bytes, p: Goose.Pdu, t: Tlv, ts: seq<Tlv>, f: seq<Option<Bytes>>)
    requires IsStrict(apdu, p, t, ts, f)
    ensures Goose.DecodePdu(apdu) == Some(p) && TlvOf(apdu) == Ok(t) && t.tag == 0x61 && Tlvs(t.value) == Ok(ts)
    ensures f == GooseFields(ts)
  {
    hide Goose.DecodePdu, TlvOf, Tlvs, BeginsWith, ConsistsOf, FieldsAre, HeaderIs, Spells, GooseFields, AreStrictValues;
    GooseMeans(apdu, p, t, ts, f);
    ElementIsRead(apdu, t);
    ElementsAreRead(t.value, ts);
    FieldsAreRead(ts, f);
  }

  lemma StrictIs(apdu: Bytes, p: Goose.Pdu, t: Tlv, ts: seq<Tlv>)
    requires Goose.DecodePdu(apdu) == Some(p) && TlvOf(apdu) == Ok(t) && t.tag == 0x61 && Tlvs(t.value) == Ok(ts)
    ensures Conformant(apdu) <==> IsStrict(apdu, p, t, ts, GooseFields(ts))
  {
    hide Goose.DecodePdu, TlvOf, Tlvs, BeginsWith, ConsistsOf, FieldsAre, HeaderIs, Spells, Goose.FieldMap, InSequence,
         ConformantFields, Everywhere, AreStrictValues, IsStrictString, IsStrictCounter;
    GooseSays(t, ts, apdu, p);
    SequenceIsChecked(ts);
    FieldsAreChecked(ts, p.header);
    if GooseFields(ts)[11].Some? {
      ValuesAreChecked(GooseFields(ts)[11].value);
    }
  }
}
