/**
 Lists of TLVs: scanned one after the other in the octets they tile, and written from a
 list of fields. GOOSE, Sampled Values and the frame templates share them.
 */
module TlvLists {
  import opened Octets
  import opened Ber

  // --- scanning --------------------------------------------------------------------------

  // `done` are the TLVs before `at`.
  ghost predicate Scanned(content: Bytes, done: seq<Tlv>, at: nat)
    requires at <= |content|
  {
    Tlvs(content) ==
    match Tlvs(content[at..])
    case Err(e) => Err(e)
    case Ok(rest) => Ok(done + rest)
  }

  lemma ScannedStep(content: Bytes, done: seq<Tlv>, at: nat)
    requires at < |content| && Scanned(content, done, at) && TlvOf(content[at..]).Ok?
    ensures var t := TlvOf(content[at..]).value; Scanned(content, done + [t], at + t.end)
  {
    hide TlvOf;
    var s := content[at..];
    var t := TlvOf(s).value;
    assert content[at + t.end..] == s[t.end..];
    var tail := Tlvs(s[t.end..]);
    if tail.Ok? {
      assert Tlvs(s) == Ok([t] + tail.value);
      assert done + ([t] + tail.value) == (done + [t]) + tail.value;
    } else {
      assert Tlvs(s) == Err(tail.error);
    }
  }

  lemma ScannedFailure(content: Bytes, done: seq<Tlv>, at: nat)
    requires at < |content| && Scanned(content, done, at) && TlvOf(content[at..]).Err?
    ensures Tlvs(content).Err?
  {
  }

  lemma ScannedEnd(content: Bytes, done: seq<Tlv>)
    requires Scanned(content, done, |content|)
    ensures Tlvs(content) == Ok(done)
  {
    assert done + [] == done;
  }

  lemma ScannedStart(content: Bytes)
    ensures Scanned(content, [], 0)
  {
    assert content[0..] == content;
    if Tlvs(content).Ok? {
      assert [] + Tlvs(content).value == Tlvs(content).value;
    }
  }

  // The TLV at hand is the next of the list.
  lemma NextScanned(content: Bytes, done: seq<Tlv>, at: nat) returns (t: Tlv)
    requires at < |content| && Scanned(content, done, at) && Tlvs(content).Ok?
    ensures TlvOf(content[at..]) == Ok(t)
    ensures |done| < |Tlvs(content).value| && Tlvs(content).value[|done|] == t
    ensures forall k :: 0 <= k < |done| ==> Tlvs(content).value[k] == done[k]
  {
    hide TlvOf;
    t := TlvOf(content[at..]).value;
  }

  // --- fields ----------------------------------------------------------------------------

  // A one-octet tag and its content.
  type Field = (nat, Bytes)

  function EncodeFields(fs: seq<Field>): Bytes {
    if fs == [] then [] else EncodeTlv(fs[0].0, fs[0].1) + EncodeFields(fs[1..])
  }

  predicate ShortTags(fs: seq<Field>) {
    forall k :: 0 <= k < |fs| ==> fs[k].0 < 0x100 && fs[k].0 % 32 != 31
  }

  // TLVs read back from fields.
  predicate ReadBack(fs: seq<Field>, ts: seq<Tlv>) {
    |ts| == |fs| && forall k :: 0 <= k < |fs| ==> ts[k].tag == fs[k].0 && ts[k].value == fs[k].1
  }

  lemma {:induction false} FieldsRoundTrip(fs: seq<Field>)
    requires ShortTags(fs) && |EncodeFields(fs)| < TWO_64
    ensures Tlvs(EncodeFields(fs)).Ok? && ReadBack(fs, Tlvs(EncodeFields(fs)).value)
  {
    hide TlvOf, EncodeTlv;
    if fs != [] {
      var head, rest := EncodeTlv(fs[0].0, fs[0].1), EncodeFields(fs[1..]);
      ShortTag(fs[0].0);
      ContentFits(fs[0].0, fs[0].1);
      TlvRoundTrip(fs[0].0, fs[0].1, rest);
      FieldsRoundTrip(fs[1..]);
      assert (head + rest)[|head|..] == rest;
    }
  }

  lemma {:induction false} LastFieldFits(fs: seq<Field>)
    requires fs != []
    ensures |fs[|fs| - 1].1| <= |EncodeFields(fs)|
  {
    if |fs| > 1 {
      LastFieldFits(fs[1..]);
    }
  }

  lemma {:induction false} EncodeFieldsConcat(a: seq<Field>, b: seq<Field>)
    ensures EncodeFields(a + b) == EncodeFields(a) + EncodeFields(b)
  {
    if a == [] {
      assert a + b == b;
    } else {
      assert (a + b)[1..] == a[1..] + b;
      EncodeFieldsConcat(a[1..], b);
    }
  }

  // Measured length of fields, each with a one-octet tag.
  function FieldsLen(fs: seq<Field>): nat {
    if fs == [] then 0 else TlvLen(0x80, |fs[0].1|) + FieldsLen(fs[1..])
  }

  lemma {:induction false} FieldsLenIsExact(fs: seq<Field>)
    requires ShortTags(fs)
    ensures FieldsLen(fs) == |EncodeFields(fs)|
  {
    if fs != [] {
      TlvLenIsExact(0x80, fs[0].1);
      TlvLenIsExact(fs[0].0, fs[0].1);
      ShortTag(0x80);
      ShortTag(fs[0].0);
      FieldsLenIsExact(fs[1..]);
    }
  }

  method PutFields(fs: seq<Field>, w: Writer) returns (ok: bool)
    requires w.Valid() && ShortTags(fs)
    modifies w, w.buf
    ensures w.Valid()
    ensures ok == (old(w.pos) + |EncodeFields(fs)| <= w.buf.Length)
    ensures ok ==> Extends(old(w.buf[..]), old(w.pos), w.buf[..], w.pos, EncodeFields(fs))
    decreases fs
  {
    if fs == [] {
      return true;
    }
    ok := w.PutTlv(fs[0].0, fs[0].1);
    if ok {
      ghost var b1, p1 := w.buf[..], w.pos;
      ok := PutFields(fs[1..], w);
      if ok {
        ExtendsTwice(old(w.buf[..]), old(w.pos), b1, p1, w.buf[..], w.pos,
                     EncodeTlv(fs[0].0, fs[0].1), EncodeFields(fs[1..]));
      }
    }
  }
}
