/**
 What a frame of a publisher says once it is rendered, read with no knowledge of how: the stream
 it is of, and sample after sample the numbers and the values of its source.
 */
module SvFrames {
  import opened Octets
  import opened Ber
  import opened TlvLists
  import opened Data
  import opened Sv
  import opened Ethernet
  import opened Grammar
  import opened MessageGrammar
  import opened SvTemplate

  // --- what is said --------------------------------------------------------------------------

  // The frame of a stream: its address, its APPID, and a simulated stream's bit of Reserved1.
  predicate IsOf(s: Stream, f: Frame) {
    && f.dst == s.address.dst && f.src == s.address.src && f.vlan == s.address.vlan && f.ethertype == 0x88BA
    && f.appId == s.address.appId && f.reserved1 == (if s.simulation then 0x8000 else 0) && f.reserved2 == 0
  }

  // Channel `ch` of the samples: a value and a quality of four octets each.
  ghost predicate SampleIs(sample: Bytes, ch: nat, v: (Int32, Quality)) {
    && 8 * ch + 8 <= |sample| && IsSigned(sample[8 * ch..8 * ch + 4], v.0)
    && HasDigits(sample[8 * ch + 4..8 * ch + 8], 256, v.1)
  }

  // An ASDU of a stream with sample `smp` of a second.
  ghost predicate AsduIs(s: Stream, a: Asdu, source: Source, second: int, smp: nat) {
    && a.svId == s.svId && a.datSet == s.datSet && a.smpCnt == smp && a.confRev == s.confRev && a.smpSynch == s.smpSynch
    && a.refrTm.None? && a.smpRate.None? && a.smpMod.None? && a.gmIdentity.None? && |a.sample| == 8 * s.channels
    && |source(second, smp)| == s.channels
    && forall ch :: 0 <= ch < s.channels ==> SampleIs(a.sample, ch, source(second, smp)[ch])
  }

  // --- samples -------------------------------------------------------------------------------

  lemma PackedIs(v: (Int32, Quality))
    ensures SampleIs(PackSample(v), 0, v)
  {
    hide IsSigned, HasDigits;
    var n := if v.0 < 0 then TWO_32 + v.0 else v.0;
    var p := PackSample(v);
    assert p[0..4] == ToBE(n, 4) && p[4..8] == ToBE(v.1, 4);
    Powers();
    FromToBE(n, 4);
    FromToBE(v.1, 4);
    DigitsAreRead(p[4..8], v.1);
    FirstOctet(p[0..4]);
    SignedIsRead(p[0..4], v.0);
  }

  lemma {:induction false} SamplesAre(row: seq<(Int32, Quality)>, ch: nat)
    requires ch < |row|
    ensures SampleIs(EncodeSamples(row), ch, row[ch])
  {
    hide IsSigned, HasDigits, PackSample;
    var n := |row| - 1;
    var (init, last) := (EncodeSamples(row[..n]), PackSample(row[n]));
    var all := EncodeSamples(row);
    assert all == init + last;
    if ch < n {
      SamplesAre(row[..n], ch);
      assert all[8 * ch..8 * ch + 4] == init[8 * ch..8 * ch + 4];
      assert all[8 * ch + 4..8 * ch + 8] == init[8 * ch + 4..8 * ch + 8];
    } else {
      PackedIs(row[n]);
      assert all[8 * ch..8 * ch + 4] == last[0..4] && all[8 * ch + 4..8 * ch + 8] == last[4..8];
    }
  }

  // --- the frame -----------------------------------------------------------------------------

  // One octet of Reserved1 is all that the simulation bit changes.
  lemma SimulatedIsRead(s: Stream, apdu: Bytes)
    requires TypedStream(s) && Check(s.address, |apdu|) == None && |apdu| >= 2
    ensures IsFrame(EthHeader(s, |apdu|) + apdu, {0x88BA},
                    Frame(s.address.dst, s.address.src, s.address.vlan, 0x88BA, s.address.appId,
                          if s.simulation then 0x8000 else 0, 0, apdu))
  {
    hide ParseFrame, IsFrame, EthHeader, HeaderOctets;
    var a := s.address;
    var plain := HeaderOctets(a, ETHERTYPE_SV, |apdu|) + apdu;
    FrameIsWritten(a, ETHERTYPE_SV, apdu);
    HeaderIsSame(s, apdu);
    if s.simulation {
      BitIsRead(plain, Frame(a.dst, a.src, a.vlan, 0x88BA, a.appId, 0, 0, apdu));
    }
  }

  lemma HeaderIsSame(s: Stream, apdu: Bytes)
    requires TypedStream(s)
    ensures var plain := HeaderOctets(s.address, ETHERTYPE_SV, |apdu|) + apdu;
            var at := if s.address.vlan.Some? then 22 else 18;
            |plain| > at && EthHeader(s, |apdu|) + apdu == if s.simulation then plain[at := 0x80] else plain
  {
    hide ToBE;
  }

  lemma BitIsRead(plain: Bytes, f: Frame)
    requires IsFrame(plain, {0x88BA}, f) && f.reserved1 == 0
    ensures IsFrame(plain[if f.vlan.Some? then 22 else 18 := 0x80], {0x88BA}, f.(reserved1 := 0x8000))
  {
    var at := if f.vlan.Some? then 22 else 18;
    var raw := plain[at := 0x80];
    assert raw[..6] == plain[..6] && raw[6..12] == plain[6..12];
    assert forall i: nat :: at < i <= |raw| ==> raw[i..] == plain[i..];
  }

  // Every frame that is rendered is a frame of the stream, its APDU a PDU of as many ASDUs, each
  // the next sample of its source, in the second it falls in.
  lemma RenderedIsRead(s: Stream, source: Source, second: int, first: nat, rate: nat, n: nat)
    requires TypedStream(s) && Channels(source, s.channels) && 0 < rate <= 0x1_0000
    requires EncodeSvFrame(s, NumberedSlots(source, second, first, rate, n)).Ok?
    ensures exists f, p, t, ts ::
              && IsFrame(EncodeSvFrame(s, NumberedSlots(source, second, first, rate, n)).value, {0x88BA}, f)
              && IsOf(s, f) && IsSv(f.apdu, p, t, ts) && |p.asdus| == n
              && forall i :: 0 <= i < n ==> AsduIs(s, p.asdus[i], source, second + (first + i) / rate, (first + i) % rate)
  {
    hide IsFrame, IsSv, EncodeSvFrame, EthHeader, Apdu, AsduIs, DecodeSvPdu, EncodeSamples;
    var slots := NumberedSlots(source, second, first, rate, n);
    var apdu := Apdu(s, slots);
    FrameIs(s, slots);
    var p := PduIs(s, slots);
    var f := Frame(s.address.dst, s.address.src, s.address.vlan, 0x88BA, s.address.appId,
                   if s.simulation then 0x8000 else 0, 0, apdu);
    SimulatedIsRead(s, apdu);
    SvIsRead(apdu, p);
    var t, ts :| IsSv(apdu, p, t, ts);
    forall i | 0 <= i < n
      ensures AsduIs(s, p.asdus[i], source, second + (first + i) / rate, (first + i) % rate)
    {
      AsduSaysSlot(s, source, second, first, rate, i);
    }
    assert IsOf(s, f) && IsSv(f.apdu, p, t, ts);
  }

  lemma FrameIs(s: Stream, slots: seq<Slot>)
    requires TypedStream(s) && EncodeSvFrame(s, slots).Ok? && Fits(s, slots)
    ensures |Apdu(s, slots)| >= 2 && Check(s.address, |Apdu(s, slots)|) == None
    ensures EncodeSvFrame(s, slots).value == EthHeader(s, |Apdu(s, slots)|) + Apdu(s, slots)
  {
    hide EthHeader, Apdu, SetSimulated, HeaderOctets;
    ApduLayout(s, slots);
    HeaderAtLeast(|slots|, BodyLen(s, |slots|));
    Encoded(s, slots);
  }

  lemma PduIs(s: Stream, slots: seq<Slot>) returns (p: SvPdu)
    requires TypedStream(s) && EncodeSvFrame(s, slots).Ok? && Fits(s, slots)
    requires forall i :: 0 <= i < |slots| ==> slots[i].smpCnt < 0x1_0000
    ensures p == SvPdu(AsdusWith(s, slots), None) && DecodeSvPdu(Apdu(s, slots)) == Some(p)
  {
    hide EncodeSvPdu, DecodeSvPdu, SetSimulated, EncodeSvFrame;
    p := SvPdu(AsdusWith(s, slots), None);
    FrameIs(s, slots);
    SvRoundTrip(p, []);
    assert Apdu(s, slots) + [] == Apdu(s, slots);
  }

  lemma AsduSaysSlot(s: Stream, source: Source, second: int, first: nat, rate: nat, i: nat)
    requires rate > 0 && Channels(source, s.channels)
    ensures AsduIs(s, AsduWith(s, Numbered(source, second, first, rate, i)), source,
                   second + (first + i) / rate, (first + i) % rate)
  {
    hide SampleIs, EncodeSamples;
    var row := source(second + (first + i) / rate, (first + i) % rate);
    forall ch | 0 <= ch < s.channels
      ensures SampleIs(EncodeSamples(row), ch, row[ch])
    {
      SamplesAre(row, ch);
    }
  }
}
