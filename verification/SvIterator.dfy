/**
 The native iterator over the ASDUs of a checked Sampled Values PDU (`sv.rs`): it decodes
 them again, lazily, across every seqASDU, and gives exactly those of the recursive decoding.
 */
module SvIterator {
  import opened Octets
  import opened Ber
  import opened Sv

  // The ASDUs of what is left of a seqASDU, and whether they can all be decoded.
  function ItemsLeft(s: Bytes): Option<seq<Asdu>>
    decreases |s|
  {
    if s == [] then Some([])
    else
      match TlvOf(s)
      case Err(_) => None
      case Ok(t) =>
        var rest := ItemsLeft(s[t.end..]);
        if DecodeAsdu(t.value).None? || rest.None? then None else Some([DecodeAsdu(t.value).value] + rest.value)
  }

  // The ASDUs of what is left of a PDU.
  function PduLeft(s: Bytes): Option<seq<Asdu>>
    decreases |s|
  {
    if s == [] then Some([])
    else
      match TlvOf(s)
      case Err(_) => None
      case Ok(t) =>
        var items := if t.tag == TAG_SEQ_ASDU then ItemsLeft(t.value) else Some([]);
        var rest := PduLeft(s[t.end..]);
        if items.None? || rest.None? then None else Some(items.value + rest.value)
  }

  // The first item, then the others.
  lemma {:induction false} ItemsFromHead(ts: seq<Tlv>)
    requires ts != [] && DecodeItems(ts).Some?
    ensures DecodeAsdu(ts[0].value).Some? && DecodeItems(ts[1..]).Some?
    ensures DecodeItems(ts).value == [DecodeAsdu(ts[0].value).value] + DecodeItems(ts[1..]).value
  {
    hide DecodeAsdu;
    var n := |ts| - 1;
    if n == 0 {
      assert ts[..0] == [] && ts[1..] == [];
    } else {
      ItemsFromHead(ts[..n]);
      assert ts[..n][1..] == ts[1..][..n - 1];
    }
  }

  lemma {:induction false} SeqIsLeft(content: Bytes)
    requires DecodeSeq(content).Some?
    ensures ItemsLeft(content) == DecodeSeq(content)
    decreases |content|
  {
    hide TlvOf, DecodeAsdu;
    if content != [] {
      var ts := Tlvs(content).value;
      var t := TlvOf(content).value;
      assert ts == [t] + Tlvs(content[t.end..]).value;
      ItemsFromHead(ts);
      assert ts[1..] == Tlvs(content[t.end..]).value;
      SeqIsLeft(content[t.end..]);
    }
  }

  function AsdusOf(t: Tlv): Option<seq<Asdu>> {
    if t.tag == TAG_SEQ_ASDU then DecodeSeq(t.value) else Some([])
  }

  // The ASDUs among fields, whatever the others say.
  function AsdusIn(ts: seq<Tlv>): Option<seq<Asdu>> {
    if ts == [] then Some([])
    else
      var first, rest := AsdusOf(ts[0]), AsdusIn(ts[1..]);
      if first.None? || rest.None? then None else Some(first.value + rest.value)
  }

  lemma {:induction false} AsdusSnoc(ts: seq<Tlv>, t: Tlv)
    requires AsdusIn(ts).Some? && AsdusOf(t).Some?
    ensures AsdusIn(ts + [t]) == Some(AsdusIn(ts).value + AsdusOf(t).value)
  {
    hide AsdusOf;
    if ts == [] {
      assert [] + [t] == [t] && [t][1..] == [];
      assert [] + AsdusOf(t).value == AsdusOf(t).value == AsdusOf(t).value + [];
    } else {
      assert (ts + [t])[1..] == ts[1..] + [t];
      AsdusSnoc(ts[1..], t);
      var first, rest := AsdusOf(ts[0]).value, AsdusIn(ts[1..]).value;
      assert first + (rest + AsdusOf(t).value) == (first + rest) + AsdusOf(t).value;
    }
  }

  lemma {:induction false} AbsorbedAsdus(ts: seq<Tlv>)
    requires Absorb(ts).Some?
    ensures AsdusIn(ts) == Some(Absorb(ts).value.asdus)
  {
    hide DecodeSeq, AsdusIn;
    if ts == [] {
      NoAsdus();
    } else {
      var n := |ts| - 1;
      AbsorbedAsdus(ts[..n]);
      AsdusSnoc(ts[..n], ts[n]);
      assert ts == ts[..n] + [ts[n]];
      var before := Absorb(ts[..n]).value.asdus;
      assert before + [] == before;
    }
  }

  lemma NoAsdus()
    ensures AsdusIn([]) == Some([])
  {
  }

  lemma {:induction false} FieldsAreLeft(content: Bytes)
    requires Tlvs(content).Ok? && AsdusIn(Tlvs(content).value).Some?
    ensures PduLeft(content) == AsdusIn(Tlvs(content).value)
    decreases |content|
  {
    hide TlvOf, DecodeSeq, ItemsLeft;
    if content != [] {
      var ts := Tlvs(content).value;
      var t := TlvOf(content).value;
      assert ts == [t] + Tlvs(content[t.end..]).value;
      assert ts[1..] == Tlvs(content[t.end..]).value;
      FieldsAreLeft(content[t.end..]);
      if t.tag == TAG_SEQ_ASDU {
        SeqIsLeft(t.value);
      }
    }
  }

  // On a PDU that was accepted, what is left to iterate are its ASDUs.
  lemma CheckedIsLeft(apdu: Bytes)
    requires DecodeSvPdu(apdu).Some?
    ensures TlvOf(apdu).Ok? && PduLeft(TlvOf(apdu).value.value) == Some(DecodeSvPdu(apdu).value.asdus)
  {
    hide TlvOf, Tlvs, PduLeft, DecodeSeq, Absorb, AsdusIn;
    var content := TlvOf(apdu).value.value;
    AbsorbedAsdus(Tlvs(content).value);
    FieldsAreLeft(content);
  }

  // --- the iterator ------------------------------------------------------------------------

  class Asdus {
    const content: Bytes
    var at: nat
    var inner: Option<(Bytes, nat)>

    ghost predicate Bounds()
      reads this
    {
      at <= |content| < TWO_63 && (inner.Some? ==> inner.value.1 <= |inner.value.0| < TWO_63)
    }

    // What is left to give, None if some of it could not be decoded.
    ghost function Left(): Option<seq<Asdu>>
      requires Bounds()
      reads this
    {
      var items := if inner.Some? then ItemsLeft(inner.value.0[inner.value.1..]) else Some([]);
      var rest := PduLeft(content[at..]);
      if items.None? || rest.None? then None else Some(items.value + rest.value)
    }

    ghost predicate Valid()
      reads this
    {
      Bounds() && Left().Some?
    }

    // Over the PDU that was checked.
    constructor (apdu: Bytes)
      requires DecodeSvPdu(apdu).Some? && |apdu| < TWO_63
      ensures Valid() && Left() == Some(DecodeSvPdu(apdu).value.asdus)
    {
      CheckedIsLeft(apdu);
      content := TlvOf(apdu).value.value;
      at, inner := 0, None;
      new;
      assert content[0..] == content;
      assert [] + DecodeSvPdu(apdu).value.asdus == DecodeSvPdu(apdu).value.asdus;
    }

    // The next ASDU of the seqASDU at hand.
    method NextInner() returns (asdu: Option<Asdu>)
      requires Valid() && inner.Some?
      modifies `inner
      ensures Valid()
      ensures match asdu
              case None => inner.None? && Left() == old(Left())
              case Some(a) => old(Left()).value == [a] + Left().value
    {
      hide TlvOf, DecodeAsdu, PduLeft;
      var (items, offset) := inner.value;
      if offset >= |items| {
        inner := None;
        assert items[offset..] == [];
        return None;
      }
      var tlv := NativeDecodeTlv(items, offset);
      var decoded := NativeDecodeAsdu(tlv.value.value);
      SuffixOfSuffix(items, offset, tlv.value.end);
      ghost var t := TlvOf(items[offset..]).value;
      inner := Some((items, tlv.value.end));
      assert items[offset..][t.end..] == items[tlv.value.end..];
      return Some(decoded.value);
    }

    // The next field of the PDU; a seqASDU is entered.
    method NextOuter()
      requires Valid() && inner.None? && at < |content|
      modifies `at, `inner
      ensures Valid() && Left() == old(Left()) && at > old(at)
    {
      hide TlvOf, ItemsLeft;
      ghost var s := content[at..];
      var tlv := NativeDecodeTlv(content, at);
      SuffixOfSuffix(content, at, tlv.value.end);
      ghost var t := TlvOf(s).value;
      at := tlv.value.end;
      assert s[t.end..] == content[at..];
      ghost var rest := PduLeft(content[at..]).value;
      assert [] + rest == rest;
      if tlv.value.tag == TAG_SEQ_ASDU {
        inner := Some((tlv.value.value, 0));
        assert tlv.value.value[0..] == tlv.value.value;
        ghost var items := ItemsLeft(t.value).value;
        assert [] + (items + rest) == items + rest;
      }
    }

    // The ASDUs one after the other, none left out and none made up.
    method Next() returns (asdu: Option<Asdu>)
      requires Valid()
      modifies `at, `inner
      ensures Valid()
      ensures match asdu
              case None => old(Left()) == Some([]) == Left()
              case Some(a) => old(Left()).value == [a] + Left().value
    {
      while true
        invariant Valid() && Left() == old(Left())
        decreases |content| - at, if inner.Some? then 1 else 0
      {
        if inner.Some? {
          asdu := NextInner();
          if asdu.Some? {
            return asdu;
          }
        }
        if at >= |content| {
          assert content[at..] == [];
          ghost var left := Left().value;
          assert left == [];
          return None;
        }
        NextOuter();
      }
    }
  }
}
