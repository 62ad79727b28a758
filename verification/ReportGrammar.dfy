/**
 What a report means, said of its octets and its access results (`mms/report.py`): bits by their
 weights, each field by its place, whoever sent it. The client reads a report exactly when the
 results are that report.
 */
module ReportGrammar {
  import opened Octets
  import opened Ber
  import opened Data
  import opened Grammar
  import opened ReportWire

  // --- bits ----------------------------------------------------------------------------------

  // Bit `i` of octets, the highest of the first octet being bit 0.
  predicate BitAt(octets: Bytes, i: nat)
    requires i < 8 * |octets|
  {
    octets[i / 8] / Power(2, 7 - i % 8) % 2 == 1
  }

  // How many bits a bit string holds. More unused bits than there are count back once more, as
  // a negative bound of a slice does.
  function BitCount(octets: nat, unused: nat): nat {
    var all := 8 * octets;
    if unused <= all then all - unused else if unused < 2 * all then 2 * all - unused else 0
  }

  // The flags of a bit string, first bit first.
  ghost predicate AreFlags(octets: Bytes, unused: nat, flags: seq<bool>) {
    && |flags| == BitCount(|octets|, unused)
    && forall i :: 0 <= i < |flags| ==> (flags[i] <==> BitAt(octets, i))
  }

  lemma {:induction false} DigitIs(v: nat, n: nat, k: nat)
    requires k < n
    ensures Digits(v, n)[k] <==> v / Power(2, n - 1 - k) % 2 == 1
  {
    if k < n - 1 {
      DigitIs(v / 2, n - 1, k);
      QuotientTwice(v, 2, Power(2, n - 2 - k));
    }
  }

  lemma {:induction false} BitIs(s: Bytes, i: nat)
    requires i < 8 * |s|
    ensures AllBits(s)[i] <==> BitAt(s, i)
  {
    hide Power, Digits;
    if i < 8 {
      DigitIs(s[0], 8, i);
    } else {
      BitIs(s[1..], i - 8);
      assert s[1..][(i - 8) / 8] == s[i / 8] && (i - 8) % 8 == i % 8;
    }
  }

  lemma FlagsAreRead(octets: Bytes, unused: nat, flags: seq<bool>)
    ensures BitsOf(octets, unused) == flags <==> AreFlags(octets, unused, flags)
  {
    hide AllBits, BitAt;
    forall i | 0 <= i < 8 * |octets|
      ensures AllBits(octets)[i] <==> BitAt(octets, i)
    {
      BitIs(octets, i);
    }
    if AreFlags(octets, unused, flags) {
      assert BitsOf(octets, unused) == flags;
    }
  }

  predicate Bit(flags: seq<bool>, i: nat) {
    i < |flags| && flags[i]
  }

  // The first bit is reserved; missing bits are not set.
  predicate IsOptFlds(flags: seq<bool>, o: OptFlds) {
    && o.sequenceNumber == Bit(flags, 1) && o.reportTimeStamp == Bit(flags, 2) && o.reasonForInclusion == Bit(flags, 3)
    && o.dataSetName == Bit(flags, 4) && o.dataReference == Bit(flags, 5) && o.bufferOverflow == Bit(flags, 6)
    && o.entryId == Bit(flags, 7) && o.confRevision == Bit(flags, 8) && o.segmentation == Bit(flags, 9)
  }

  predicate IsReason(flags: seq<bool>, r: Reason) {
    && r.dataChange == Bit(flags, 1) && r.qualityChange == Bit(flags, 2) && r.dataUpdate == Bit(flags, 3)
    && r.integrity == Bit(flags, 4) && r.generalInterrogation == Bit(flags, 5) && r.applicationTrigger == Bit(flags, 6)
  }

  lemma OptFldsAreRead(flags: seq<bool>, o: OptFlds)
    ensures OptFldsOf(flags) == o <==> IsOptFlds(flags, o)
  {
  }

  lemma ReasonIsRead(flags: seq<bool>, r: Reason)
    ensures ReasonOf(flags) == r <==> IsReason(flags, r)
  {
  }

  // --- access results ------------------------------------------------------------------------

  // A failure is a tag 80 and its code, anything else a value.
  ghost predicate IsResult(t: Tlv, r: AccessResult) {
    match r
    case Failure(code) => t.tag == 0x80 && t.value != [] && IsSigned(t.value, code)
    case Success(v) => t.tag != 0x80 && SpellsOne(t.tag, t.value, v)
  }

  ghost predicate AreResults(s: Bytes, rs: seq<AccessResult>) {
    if rs == [] then s == []
    else exists t: Tlv :: BeginsWith(s, t) && IsResult(t, rs[0]) && t.end <= |s| && AreResults(s[t.end..], rs[1..])
  }

  lemma ResultIsRead(t: Tlv, r: AccessResult)
    ensures DecodeResult(t) == Ok(r) <==> IsResult(t, r)
  {
    hide DecodeData, SpellsOne, SignedBE, IsSigned;
    match r
    case Failure(code) => SignedIsRead(t.value, code);
    case Success(v) => OneIsRead(t.tag, t.value, v);
  }

  lemma {:induction false} ResultsAreRead(s: Bytes, rs: seq<AccessResult>)
    ensures DecodeResults(s) == Ok(rs) <==> AreResults(s, rs)
    decreases |s|
  {
    hide TlvOf, BeginsWith, IsResult, DecodeResult;
    if s == [] {
      NothingBegins(s);
    } else if rs != [] {
      if DecodeResults(s) == Ok(rs) {
        var t := TlvOf(s).value;
        ElementIsRead(s, t);
        ResultIsRead(t, rs[0]);
        ResultsAreRead(s[t.end..], rs[1..]);
        assert BeginsWith(s, t) && IsResult(t, rs[0]);
      }
      if AreResults(s, rs) {
        var t: Tlv :| BeginsWith(s, t) && IsResult(t, rs[0]) && t.end <= |s| && AreResults(s[t.end..], rs[1..]);
        ElementIsRead(s, t);
        ResultIsRead(t, rs[0]);
        ResultsAreRead(s[t.end..], rs[1..]);
        assert rs == [rs[0]] + rs[1..];
      }
    }
  }

  // --- fields --------------------------------------------------------------------------------

  // The result at a place is this leaf.
  predicate LeafAt(rs: seq<AccessResult>, i: nat, l: Leaf) {
    i < |rs| && rs[i] == Success(Single(l))
  }

  predicate StringAt(rs: seq<AccessResult>, i: nat, s: Bytes) {
    LeafAt(rs, i, VisibleString(s))
  }

  // Unsigned, or an integer as some servers send it.
  predicate NumberAt(rs: seq<AccessResult>, i: nat, n: int) {
    LeafAt(rs, i, Int(n)) || (n >= 0 && LeafAt(rs, i, UInt(n)))
  }

  predicate TimeAt(rs: seq<AccessResult>, i: nat, t: Leaf) {
    LeafAt(rs, i, t) && (t.UtcTime? || t.BinaryTime?)
  }

  ghost predicate FlagsAt(rs: seq<AccessResult>, i: nat, flags: seq<bool>) {
    exists octets: Bytes, unused: nat :: LeafAt(rs, i, BitString(octets, unused)) && AreFlags(octets, unused, flags)
  }

  function Next(i: nat, present: bool): nat {
    if present then i + 1 else i
  }

  // Where the fields up to DatSet end, and where all those before the inclusion bits do.
  function FrontEnd(o: OptFlds): nat {
    Next(Next(Next(2, o.sequenceNumber), o.reportTimeStamp), o.dataSetName)
  }

  function HeadEnd(o: OptFlds): nat {
    var i := Next(Next(Next(FrontEnd(o), o.bufferOverflow), o.entryId), o.confRevision);
    if o.segmentation then i + 2 else i
  }

  // RptID and OptFlds, then each optional field in its order, there exactly when its option is.
  ghost predicate IsFront(rs: seq<AccessResult>, f: Front) {
    var o := f.opt;
    var i := Next(2, o.sequenceNumber);
    && StringAt(rs, 0, f.rptId) && (exists flags :: FlagsAt(rs, 1, flags) && IsOptFlds(flags, o))
    && (if o.sequenceNumber then f.seqNum.Some? && NumberAt(rs, 2, f.seqNum.value) else f.seqNum.None?)
    && (if o.reportTimeStamp then f.timeOfEntry.Some? && TimeAt(rs, i, f.timeOfEntry.value) else f.timeOfEntry.None?)
    && (if o.dataSetName then f.dataSet.Some? && StringAt(rs, Next(i, o.reportTimeStamp), f.dataSet.value)
        else f.dataSet.None?)
  }

  ghost predicate IsBack(rs: seq<AccessResult>, h: ReportHead) {
    var o := h.opt;
    var i4 := FrontEnd(o);
    var i5 := Next(i4, o.bufferOverflow);
    var i6 := Next(i5, o.entryId);
    var i7 := Next(i6, o.confRevision);
    && (if o.bufferOverflow then h.bufOvfl.Some? && LeafAt(rs, i4, Bool(h.bufOvfl.value)) else h.bufOvfl.None?)
    && (if o.entryId then h.entryId.Some? && LeafAt(rs, i5, OctetString(h.entryId.value)) else h.entryId.None?)
    && (if o.confRevision then h.confRev.Some? && NumberAt(rs, i6, h.confRev.value) else h.confRev.None?)
    && (if o.segmentation then
          && h.subSeqNum.Some? && NumberAt(rs, i7, h.subSeqNum.value)
          && h.moreSegments.Some? && LeafAt(rs, i7 + 1, Bool(h.moreSegments.value))
        else h.subSeqNum.None? && h.moreSegments.None?)
  }

  ghost predicate IsHead(rs: seq<AccessResult>, h: ReportHead) {
    IsFront(rs, Front(h.rptId, h.opt, h.seqNum, h.timeOfEntry, h.dataSet)) && IsBack(rs, h)
  }

  ghost predicate ReasonAt(rs: seq<AccessResult>, i: nat, r: Reason) {
    exists flags :: FlagsAt(rs, i, flags) && IsReason(flags, r)
  }

  // One entry for each bit that is set, in their order.
  predicate IncludedAre(inclusion: seq<bool>, es: seq<ReportEntry>) {
    && (forall i, j :: 0 <= i < j < |es| ==> es[i].index < es[j].index)
    && (forall i :: 0 <= i < |es| ==> es[i].index < |inclusion| && inclusion[es[i].index])
    && (forall p: nat :: p < |inclusion| && inclusion[p] ==> exists i :: 0 <= i < |es| && es[i].index == p)
  }

  // The reference of each member included, if there are to be any, then its value, then its
  // reason if there are to be any; and nothing after them.
  ghost predicate AreEntries(rs: seq<AccessResult>, at: nat, o: OptFlds, es: seq<ReportEntry>) {
    var n := |es|;
    var i := if o.dataReference then at + n else at;
    && |rs| == (if o.reasonForInclusion then i + 2 * n else i + n)
    && (forall k :: 0 <= k < n ==> es[k].value == rs[i + k])
    && (forall k :: 0 <= k < n ==>
          if o.dataReference then es[k].reference.Some? && StringAt(rs, at + k, es[k].reference.value)
          else es[k].reference.None?)
    && (forall k :: 0 <= k < n ==>
          if o.reasonForInclusion then es[k].reason.Some? && ReasonAt(rs, i + n + k, es[k].reason.value)
          else es[k].reason.None?)
  }

  ghost predicate IsReport(rs: seq<AccessResult>, r: Report) {
    && IsHead(rs, r.head) && FlagsAt(rs, HeadEnd(r.head.opt), r.inclusion) && IncludedAre(r.inclusion, r.entries)
    && AreEntries(rs, HeadEnd(r.head.opt) + 1, r.head.opt, r.entries)
  }

  // --- the head ------------------------------------------------------------------------------

  lemma TakeIs(rs: seq<AccessResult>, i: nat, k: Kind)
    requires i <= |rs|
    ensures Take(rs[i..], k).Parsed? <==> i < |rs| && rs[i].Success? && rs[i].value.Single? && Is(rs[i].value.leaf, k)
    ensures Take(rs[i..], k).Parsed? ==> Take(rs[i..], k).value == (rs[i].value.leaf, rs[i + 1..])
  {
    if i < |rs| {
      assert rs[i..][1..] == rs[i + 1..];
    }
  }

  // A field that is there when it is to be, and holds this leaf.
  predicate FieldIs(present: bool, rs: seq<AccessResult>, i: nat, k: Kind, v: Option<Leaf>) {
    if present then v.Some? && LeafAt(rs, i, v.value) && Is(v.value, k) else v.None?
  }

  predicate NumberIs(present: bool, rs: seq<AccessResult>, i: nat, v: Option<int>) {
    if present then v.Some? && NumberAt(rs, i, v.value) else v.None?
  }

  lemma TakeIfIs(present: bool, rs: seq<AccessResult>, i: nat, k: Kind, v: Option<Leaf>)
    requires i <= |rs|
    ensures var t := TakeIf(present, rs[i..], k);
            && (t.Parsed? && t.value.0 == v <==> FieldIs(present, rs, i, k, v))
            && (t.Parsed? ==> Next(i, present) <= |rs| && t.value.1 == rs[Next(i, present)..])
  {
    TakeIs(rs, i, k);
  }

  lemma TakeUIntIfIs(present: bool, rs: seq<AccessResult>, i: nat, v: Option<int>)
    requires i <= |rs|
    ensures var t := TakeUIntIf(present, rs[i..]);
            && (t.Parsed? && t.value.0 == v <==> NumberIs(present, rs, i, v))
            && (t.Parsed? ==> Next(i, present) <= |rs| && t.value.1 == rs[Next(i, present)..])
  {
    TakeIs(rs, i, AUInt);
    if i < |rs| {
      assert rs[i..][1..] == rs[i + 1..];
    }
  }

  lemma FlagsAre(rs: seq<AccessResult>, i: nat, flags: seq<bool>)
    ensures FlagsAt(rs, i, flags) <==>
              && i < |rs| && rs[i].Success? && rs[i].value.Single? && rs[i].value.leaf.BitString?
              && BitsOf(rs[i].value.leaf.bits, rs[i].value.leaf.unused) == flags
  {
    hide BitsOf, AreFlags;
    if i < |rs| && rs[i].Success? && rs[i].value.Single? && rs[i].value.leaf.BitString? {
      FlagsAreRead(rs[i].value.leaf.bits, rs[i].value.leaf.unused, flags);
    }
  }

  lemma OptionsAre(rs: seq<AccessResult>, i: nat, o: OptFlds)
    ensures (exists flags :: FlagsAt(rs, i, flags) && IsOptFlds(flags, o)) <==>
              && i < |rs| && rs[i].Success? && rs[i].value.Single? && rs[i].value.leaf.BitString?
              && OptFldsOf(BitsOf(rs[i].value.leaf.bits, rs[i].value.leaf.unused)) == o
  {
    hide BitsOf, FlagsAt, OptFldsOf, IsOptFlds;
    if i < |rs| && rs[i].Success? && rs[i].value.Single? && rs[i].value.leaf.BitString? {
      var flags := BitsOf(rs[i].value.leaf.bits, rs[i].value.leaf.unused);
      FlagsAre(rs, i, flags);
      OptFldsAreRead(flags, o);
    }
    if exists flags :: FlagsAt(rs, i, flags) && IsOptFlds(flags, o) {
      var flags :| FlagsAt(rs, i, flags) && IsOptFlds(flags, o);
      FlagsAre(rs, i, flags);
      OptFldsAreRead(flags, o);
    }
  }

  function StringLeaf(v: Option<Bytes>): Option<Leaf> {
    if v.None? then None else Some(VisibleString(v.value))
  }

  function OctetLeaf(v: Option<Bytes>): Option<Leaf> {
    if v.None? then None else Some(OctetString(v.value))
  }

  function BoolLeaf(v: Option<bool>): Option<Leaf> {
    if v.None? then None else Some(Bool(v.value))
  }

  lemma FrontFields(rs: seq<AccessResult>, f: Front)
    ensures var o := f.opt;
            var i := Next(2, o.sequenceNumber);
            IsFront(rs, f) <==>
              && StringAt(rs, 0, f.rptId) && (exists flags :: FlagsAt(rs, 1, flags) && IsOptFlds(flags, o))
              && NumberIs(o.sequenceNumber, rs, 2, f.seqNum) && FieldIs(o.reportTimeStamp, rs, i, ATime, f.timeOfEntry)
              && FieldIs(o.dataSetName, rs, Next(i, o.reportTimeStamp), AVisibleString, StringLeaf(f.dataSet))
  {
    hide FlagsAt, IsOptFlds, NumberAt;
  }

  lemma FrontIsRead(rs: seq<AccessResult>, f: Front)
    ensures DecodeFront(rs).Parsed? && DecodeFront(rs).value.0 == f <==> IsFront(rs, f)
    ensures DecodeFront(rs).Parsed? ==>
              var end := FrontEnd(DecodeFront(rs).value.0.opt); end <= |rs| && DecodeFront(rs).value.1 == rs[end..]
  {
    hide BitsOf, OptFldsOf, Take, TakeIf, TakeUIntIf, FlagsAt, IsOptFlds, FieldIs, NumberIs, IsFront;
    FrontFields(rs, f);
    assert rs[0..] == rs;
    TakeIs(rs, 0, AVisibleString);
    if rs != [] {
      TakeIs(rs, 1, ABitString);
    }
    OptionsAre(rs, 1, f.opt);
    if Take(rs, AVisibleString).Parsed? && Take(rs[1..], ABitString).Parsed? {
      var l := rs[1].value.leaf;
      var o := OptFldsOf(BitsOf(l.bits, l.unused));
      var i := Next(2, o.sequenceNumber);
      TakeUIntIfIs(o.sequenceNumber, rs, 2, f.seqNum);
      if i <= |rs| {
        TakeIfIs(o.reportTimeStamp, rs, i, ATime, f.timeOfEntry);
      }
      if Next(i, o.reportTimeStamp) <= |rs| {
        TakeIfIs(o.dataSetName, rs, Next(i, o.reportTimeStamp), AVisibleString, StringLeaf(f.dataSet));
      }
    }
  }

  lemma BackFields(rs: seq<AccessResult>, h: ReportHead)
    ensures var o := h.opt;
            var i4 := FrontEnd(o);
            var i5 := Next(i4, o.bufferOverflow);
            var i6 := Next(i5, o.entryId);
            var i7 := Next(i6, o.confRevision);
            IsBack(rs, h) <==>
              && FieldIs(o.bufferOverflow, rs, i4, ABool, BoolLeaf(h.bufOvfl))
              && FieldIs(o.entryId, rs, i5, AnOctetString, OctetLeaf(h.entryId))
              && NumberIs(o.confRevision, rs, i6, h.confRev) && NumberIs(o.segmentation, rs, i7, h.subSeqNum)
              && FieldIs(o.segmentation, rs, Next(i7, o.segmentation), ABool, BoolLeaf(h.moreSegments))
  {
    hide NumberAt, FrontEnd;
  }

  lemma BackEnds(rs: seq<AccessResult>, f: Front)
    requires FrontEnd(f.opt) <= |rs| && DecodeBack(f, rs[FrontEnd(f.opt)..]).Parsed?
    ensures HeadEnd(f.opt) <= |rs|
    ensures DecodeBack(f, rs[FrontEnd(f.opt)..]).value.1 == rs[HeadEnd(f.opt)..]
    ensures var h := DecodeBack(f, rs[FrontEnd(f.opt)..]).value.0;
            f == Front(h.rptId, h.opt, h.seqNum, h.timeOfEntry, h.dataSet)
  {
    hide TakeIf, TakeUIntIf, FieldIs, NumberIs, FrontEnd;
    var o := f.opt;
    var i4 := FrontEnd(o);
    var i5 := Next(i4, o.bufferOverflow);
    var i6 := Next(i5, o.entryId);
    var i7 := Next(i6, o.confRevision);
    TakeIfIs(o.bufferOverflow, rs, i4, ABool, None);
    TakeIfIs(o.entryId, rs, i5, AnOctetString, None);
    TakeUIntIfIs(o.confRevision, rs, i6, None);
    TakeUIntIfIs(o.segmentation, rs, i7, None);
    TakeIfIs(o.segmentation, rs, Next(i7, o.segmentation), ABool, None);
  }

  lemma BackSays(rs: seq<AccessResult>, f: Front)
    requires FrontEnd(f.opt) <= |rs| && DecodeBack(f, rs[FrontEnd(f.opt)..]).Parsed?
    ensures IsBack(rs, DecodeBack(f, rs[FrontEnd(f.opt)..]).value.0)
  {
    hide TakeIf, TakeUIntIf, FieldIs, NumberIs, FrontEnd, IsBack;
    var o := f.opt;
    var i4 := FrontEnd(o);
    var i5 := Next(i4, o.bufferOverflow);
    var i6 := Next(i5, o.entryId);
    var i7 := Next(i6, o.confRevision);
    var h := DecodeBack(f, rs[i4..]).value.0;
    BackFields(rs, h);
    TakeIfIs(o.bufferOverflow, rs, i4, ABool, BoolLeaf(h.bufOvfl));
    TakeIfIs(o.entryId, rs, i5, AnOctetString, OctetLeaf(h.entryId));
    TakeUIntIfIs(o.confRevision, rs, i6, h.confRev);
    TakeUIntIfIs(o.segmentation, rs, i7, h.subSeqNum);
    TakeIfIs(o.segmentation, rs, Next(i7, o.segmentation), ABool, BoolLeaf(h.moreSegments));
  }

  lemma BackMeans(rs: seq<AccessResult>, f: Front, h: ReportHead)
    requires FrontEnd(f.opt) <= |rs| && IsBack(rs, h) && f == Front(h.rptId, h.opt, h.seqNum, h.timeOfEntry, h.dataSet)
    ensures DecodeBack(f, rs[FrontEnd(f.opt)..]).Parsed? && DecodeBack(f, rs[FrontEnd(f.opt)..]).value.0 == h
  {
    hide TakeIf, TakeUIntIf, FieldIs, NumberIs, FrontEnd, IsBack;
    var o := f.opt;
    var i4 := FrontEnd(o);
    var i5 := Next(i4, o.bufferOverflow);
    var i6 := Next(i5, o.entryId);
    var i7 := Next(i6, o.confRevision);
    BackFields(rs, h);
    TakeIfIs(o.bufferOverflow, rs, i4, ABool, BoolLeaf(h.bufOvfl));
    TakeIfIs(o.entryId, rs, i5, AnOctetString, OctetLeaf(h.entryId));
    TakeUIntIfIs(o.confRevision, rs, i6, h.confRev);
    TakeUIntIfIs(o.segmentation, rs, i7, h.subSeqNum);
    TakeIfIs(o.segmentation, rs, Next(i7, o.segmentation), ABool, BoolLeaf(h.moreSegments));
  }

  lemma HeadIsRead(rs: seq<AccessResult>, h: ReportHead)
    ensures DecodeHead(rs).Parsed? && DecodeHead(rs).value.0 == h <==> IsHead(rs, h)
    ensures DecodeHead(rs).Parsed? ==>
              var end := HeadEnd(DecodeHead(rs).value.0.opt); end <= |rs| && DecodeHead(rs).value.1 == rs[end..]
  {
    hide DecodeFront, DecodeBack, IsFront, IsBack, FrontEnd, HeadEnd;
    FrontIsRead(rs, Front(h.rptId, h.opt, h.seqNum, h.timeOfEntry, h.dataSet));
    if DecodeFront(rs).Parsed? {
      var f := DecodeFront(rs).value.0;
      if DecodeBack(f, rs[FrontEnd(f.opt)..]).Parsed? {
        BackEnds(rs, f);
        BackSays(rs, f);
      }
      if IsHead(rs, h) {
        BackMeans(rs, f, h);
      }
    }
  }

  // --- the entries ---------------------------------------------------------------------------

  lemma {:induction false} SetIs(bits: seq<bool>)
    ensures Ascending(Set(bits)) && forall p: nat :: p in Set(bits) <==> p < |bits| && bits[p]
  {
    if bits != [] {
      SetIs(bits[..|bits| - 1]);
    }
  }

  function IndexesOf(es: seq<ReportEntry>): (r: seq<nat>)
    ensures |r| == |es|
  {
    seq(|es|, i requires 0 <= i < |es| => es[i].index)
  }

  lemma InclusionIsRead(bits: seq<bool>, es: seq<ReportEntry>)
    ensures Set(bits) == IndexesOf(es) <==> IncludedAre(bits, es)
  {
    hide Set;
    var indexes := IndexesOf(es);
    SetIs(bits);
    if Set(bits) == indexes {
      forall i | 0 <= i < |es|
        ensures es[i].index < |bits| && bits[es[i].index]
      {
        assert indexes[i] in Set(bits);
      }
      forall p: nat | p < |bits| && bits[p]
        ensures exists i :: 0 <= i < |es| && es[i].index == p
      {
        assert p in indexes;
        var i :| 0 <= i < |indexes| && indexes[i] == p;
        assert es[i].index == p;
      }
      forall i, j | 0 <= i < j < |es|
        ensures es[i].index < es[j].index
      {
        assert indexes[i] < indexes[j];
      }
    }
    if IncludedAre(bits, es) {
      assert Ascending(indexes);
      SetOfIndexes(indexes, |bits|);
      forall p: nat | p < |bits|
        ensures bits[p] <==> p in indexes
      {
        if bits[p] {
          var i :| 0 <= i < |es| && es[i].index == p;
          assert indexes[i] == p;
        }
      }
      assert seq(|bits|, i => i in indexes) == bits;
    }
  }

  // These leaves, one after the other from a place on.
  predicate LeavesAt(rs: seq<AccessResult>, at: nat, ls: seq<Leaf>) {
    at + |ls| <= |rs| && forall i :: 0 <= i < |ls| ==> LeafAt(rs, at + i, ls[i])
  }

  lemma {:induction false} TakeAllIs(rs: seq<AccessResult>, at: nat, n: nat, k: Kind, ls: seq<Leaf>)
    requires at <= |rs|
    ensures var t := TakeAll(rs[at..], n, k);
            && (t.Parsed? && t.value.0 == ls <==> |ls| == n && LeavesAt(rs, at, ls) && AllAre(ls, k))
            && (t.Parsed? ==> at + n <= |rs| && t.value.1 == rs[at + n..])
    decreases n
  {
    if n > 0 {
      TakeIs(rs, at, k);
      if ls != [] {
        OneMoreLeaf(rs, at, ls, k);
        assert ls == [ls[0]] + ls[1..];
      }
      if Take(rs[at..], k).Parsed? {
        TakeAllIs(rs, at + 1, n - 1, k, if ls == [] then [] else ls[1..]);
      }
      hide Take, TakeAll, LeavesAt, AllAre;
    }
  }

  lemma OneMoreLeaf(rs: seq<AccessResult>, at: nat, ls: seq<Leaf>, k: Kind)
    requires ls != []
    ensures LeavesAt(rs, at, ls) && AllAre(ls, k) <==>
              LeafAt(rs, at, ls[0]) && Is(ls[0], k) && LeavesAt(rs, at + 1, ls[1..]) && AllAre(ls[1..], k)
  {
    var rest := ls[1..];
    if LeavesAt(rs, at, ls) && AllAre(ls, k) {
      assert LeafAt(rs, at + 0, ls[0]);
      forall i | 0 <= i < |rest|
        ensures LeafAt(rs, at + 1 + i, rest[i]) && Is(rest[i], k)
      {
        assert LeafAt(rs, at + (i + 1), ls[i + 1]) && Is(ls[i + 1], k);
      }
    }
    if LeafAt(rs, at, ls[0]) && Is(ls[0], k) && LeavesAt(rs, at + 1, rest) && AllAre(rest, k) {
      forall i | 0 <= i < |ls|
        ensures LeafAt(rs, at + i, ls[i]) && Is(ls[i], k)
      {
        if i > 0 {
          assert LeafAt(rs, at + 1 + (i - 1), rest[i - 1]) && Is(rest[i - 1], k);
        }
      }
    }
  }

  // The leaf at a place, if there is one.
  function LeafOf(rs: seq<AccessResult>, i: nat): Leaf {
    if i < |rs| && rs[i].Success? && rs[i].value.Single? then rs[i].value.leaf else Bool(false)
  }

  lemma ReasonIs(rs: seq<AccessResult>, i: nat, r: Reason)
    ensures ReasonAt(rs, i, r) <==>
              var l := LeafOf(rs, i); LeafAt(rs, i, l) && l.BitString? && ReasonOf(BitsOf(l.bits, l.unused)) == r
  {
    hide BitsOf, FlagsAt, ReasonOf, IsReason;
    var l := LeafOf(rs, i);
    if l.BitString? {
      FlagsAre(rs, i, BitsOf(l.bits, l.unused));
      ReasonIsRead(BitsOf(l.bits, l.unused), r);
    }
    if ReasonAt(rs, i, r) {
      var flags :| FlagsAt(rs, i, flags) && IsReason(flags, r);
      FlagsAre(rs, i, flags);
      ReasonIsRead(flags, r);
    }
  }

  // What the client reads after the inclusion bits.
  function Tail(rs: seq<AccessResult>, o: OptFlds, inclusion: seq<bool>): Parse<seq<ReportEntry>> {
    var n := |Set(inclusion)|;
    var (refs, rs3) :- TakeAllIf(o.dataReference, rs, n, AVisibleString);
    if |rs3| < n then Malformed(EndsEarly)
    else
      var (reasons, rest) :- TakeAllIf(o.reasonForInclusion, rs3[n..], n, ABitString);
      if rest != [] then Malformed(Trailing) else Parsed(EntriesOf(Set(inclusion), refs, rs3[..n], reasons))
  }

  // Leaves that are there when they are to be.
  predicate ListIs(present: bool, rs: seq<AccessResult>, at: nat, n: nat, k: Kind, ls: Option<seq<Leaf>>) {
    if present then ls.Some? && |ls.value| == n && LeavesAt(rs, at, ls.value) && AllAre(ls.value, k) else ls.None?
  }

  lemma TakeAllIfIs(present: bool, rs: seq<AccessResult>, at: nat, n: nat, k: Kind, ls: Option<seq<Leaf>>)
    requires at <= |rs|
    ensures var t := TakeAllIf(present, rs[at..], n, k);
            && (t.Parsed? && t.value.0 == ls <==> ListIs(present, rs, at, n, k, ls))
            && (t.Parsed? ==> Ending(at, present, n) <= |rs| && t.value.1 == rs[Ending(at, present, n)..])
  {
    hide TakeAll, LeavesAt, AllAre;
    TakeAllIs(rs, at, n, k, if ls.Some? then ls.value else []);
  }

  function Ending(at: nat, present: bool, n: nat): nat {
    if present then at + n else at
  }

  // What the entries of the leaves read are.
  lemma EntriesAre(rs: seq<AccessResult>, at: nat, o: OptFlds, indexes: seq<nat>, refs: Option<seq<Leaf>>,
                   reasons: Option<seq<Leaf>>, es: seq<ReportEntry>)
    requires var n := |indexes|;
             && ListIs(o.dataReference, rs, at, n, AVisibleString, refs)
             && ListIs(o.reasonForInclusion, rs, Ending(at, o.dataReference, n) + n, n, ABitString, reasons)
             && |rs| == Ending(Ending(at, o.dataReference, n) + n, o.reasonForInclusion, n)
             && es == EntriesOf(indexes, refs, rs[Ending(at, o.dataReference, n)..][..n], reasons)
    ensures IndexesOf(es) == indexes && AreEntries(rs, at, o, es)
  {
    hide ReasonAt, ReasonOf, BitsOf;
    var n := |indexes|;
    var i := Ending(at, o.dataReference, n);
    forall k | 0 <= k < n
      ensures es[k].index == indexes[k] && es[k].value == rs[i + k]
      ensures o.dataReference ==> es[k].reference.Some? && StringAt(rs, at + k, es[k].reference.value)
      ensures o.reasonForInclusion ==> es[k].reason.Some? && ReasonAt(rs, i + n + k, es[k].reason.value)
    {
      if o.dataReference {
        assert LeafAt(rs, at + k, refs.value[k]);
      }
      if o.reasonForInclusion {
        assert LeafAt(rs, i + n + k, reasons.value[k]);
        ReasonIs(rs, i + n + k, es[k].reason.value);
      }
    }
  }

  lemma TailSays(rs: seq<AccessResult>, at: nat, o: OptFlds, inclusion: seq<bool>)
    requires at <= |rs| && Tail(rs[at..], o, inclusion).Parsed?
    ensures var es := Tail(rs[at..], o, inclusion).value; IncludedAre(inclusion, es) && AreEntries(rs, at, o, es)
  {
    hide TakeAllIf, ListIs, Set, ReasonAt, ReasonOf, BitsOf, IncludedAre, EntriesOf, AreEntries, IndexesOf;
    var n := |Set(inclusion)|;
    var i := Ending(at, o.dataReference, n);
    var refs := TakeAllIf(o.dataReference, rs[at..], n, AVisibleString).value.0;
    TakeAllIfIs(o.dataReference, rs, at, n, AVisibleString, refs);
    assert rs[i..][n..] == rs[i + n..];
    var reasons := TakeAllIf(o.reasonForInclusion, rs[i + n..], n, ABitString).value.0;
    TakeAllIfIs(o.reasonForInclusion, rs, i + n, n, ABitString, reasons);
    var es := Tail(rs[at..], o, inclusion).value;
    EntriesAre(rs, at, o, Set(inclusion), refs, reasons, es);
    InclusionIsRead(inclusion, es);
  }

  lemma TailMeans(rs: seq<AccessResult>, at: nat, o: OptFlds, inclusion: seq<bool>, es: seq<ReportEntry>)
    requires at <= |rs| && IncludedAre(inclusion, es) && AreEntries(rs, at, o, es)
    ensures Tail(rs[at..], o, inclusion) == Parsed(es)
  {
    var n := |es|;
    var i := Ending(at, o.dataReference, n);
    InclusionIsRead(inclusion, es);
    var refs, reasons := LeavesRead(rs, at, o, es);
    hide TakeAllIf, ListIs, Set, ReasonOf, BitsOf, IncludedAre, EntriesOf, AreEntries, IndexesOf;
    TakeAllIfIs(o.dataReference, rs, at, n, AVisibleString, refs);
    assert rs[i..][n..] == rs[i + n..];
    TakeAllIfIs(o.reasonForInclusion, rs, i + n, n, ABitString, reasons);
  }

  // The leaves entries were read from.
  lemma LeavesRead(rs: seq<AccessResult>, at: nat, o: OptFlds, es: seq<ReportEntry>)
    returns (refs: Option<seq<Leaf>>, reasons: Option<seq<Leaf>>)
    requires at <= |rs| && AreEntries(rs, at, o, es)
    ensures var n := |es|;
            var i := Ending(at, o.dataReference, n);
            && ListIs(o.dataReference, rs, at, n, AVisibleString, refs)
            && ListIs(o.reasonForInclusion, rs, i + n, n, ABitString, reasons)
            && i + n <= |rs| == Ending(i + n, o.reasonForInclusion, n)
            && es == EntriesOf(IndexesOf(es), refs, rs[i..][..n], reasons)
  {
    hide ReasonAt, ReasonOf, BitsOf, LeafOf;
    var n := |es|;
    var i := Ending(at, o.dataReference, n);
    refs := if o.dataReference then Some(seq(n, k requires 0 <= k < n => VisibleString(es[k].reference.value))) else None;
    reasons := if o.reasonForInclusion then Some(seq(n, k requires 0 <= k < n => LeafOf(rs, i + n + k))) else None;
    forall k | 0 <= k < n
      ensures o.dataReference ==> LeafAt(rs, at + k, refs.value[k])
      ensures o.reasonForInclusion ==>
                var l := reasons.value[k];
                LeafAt(rs, i + n + k, l) && l.BitString? && ReasonOf(BitsOf(l.bits, l.unused)) == es[k].reason.value
    {
      if o.dataReference {
        assert StringAt(rs, at + k, es[k].reference.value);
      }
      if o.reasonForInclusion {
        ReasonIs(rs, i + n + k, es[k].reason.value);
      }
    }
    var read := EntriesOf(IndexesOf(es), refs, rs[i..][..n], reasons);
    forall k | 0 <= k < n
      ensures read[k] == es[k]
    {
      assert es[k].value == rs[i + k];
    }
  }

  lemma InParts(rs: seq<AccessResult>)
    ensures DecodeReport(rs)
            == match DecodeHead(rs)
               case Malformed(e) => Malformed(e)
               case Parsed((head, rs1)) =>
                 match Take(rs1, ABitString)
                 case Malformed(e) => Malformed(e)
                 case Parsed((l, rs2)) =>
                   match Tail(rs2, head.opt, BitsOf(l.bits, l.unused))
                   case Malformed(e) => Malformed(e)
                   case Parsed(es) => Parsed(Report(head, BitsOf(l.bits, l.unused), es))
  {
    hide DecodeHead, Take, TakeAllIf, BitsOf, Set;
  }

  // Access results are read as a report exactly when they are that report, whichever server
  // sent them.
  lemma ReportIsRead(rs: seq<AccessResult>, r: Report)
    ensures DecodeReport(rs) == Parsed(r) <==> IsReport(rs, r)
  {
    hide DecodeReport, DecodeHead, IsHead, Take, Tail, BitsOf, FlagsAt, IncludedAre, AreEntries, HeadEnd;
    InParts(rs);
    HeadIsRead(rs, r.head);
    if DecodeHead(rs).Parsed? {
      var o := DecodeHead(rs).value.0.opt;
      var at := HeadEnd(o);
      TakeIs(rs, at, ABitString);
      FlagsAre(rs, at, r.inclusion);
      if Take(rs[at..], ABitString).Parsed? {
        var inclusion := BitsOf(rs[at].value.leaf.bits, rs[at].value.leaf.unused);
        if Tail(rs[at + 1..], o, inclusion).Parsed? {
          TailSays(rs, at + 1, o, inclusion);
        }
        if IsReport(rs, r) {
          TailMeans(rs, at + 1, o, inclusion, r.entries);
        }
      }
    }
  }

  // --- what the server sends -----------------------------------------------------------------

  // The report of an entry of a block: each field its options ask for, but for BufOvfl and
  // EntryID, which a BRCB alone sends; each member of the entry, at its place in the data set.
  ghost predicate Carries(a: Attributes, c: Content, r: Report) {
    var o, h := a.optFlds, r.head;
    && h.rptId == a.rptId
    && h.seqNum == (if o.sequenceNumber then Some(a.sqNum as int) else None)
    && h.timeOfEntry == (if o.reportTimeStamp then Some(BinaryTime(c.time)) else None)
    && h.dataSet == (if o.dataSetName then Some(a.datSet) else None)
    && h.bufOvfl == (if a.buffered && o.bufferOverflow then Some(a.overflowed) else None)
    && (if a.buffered && o.entryId then
          h.entryId.Some? && |h.entryId.value| == 8 && HasDigits(h.entryId.value, 256, c.id)
        else h.entryId.None?)
    && h.confRev == (if o.confRevision then Some(a.confRev as int) else None)
    && |r.inclusion| == |a.members| && (forall i: nat :: i < |a.members| ==> (r.inclusion[i] <==> i in c.indexes))
    && |r.entries| == |c.indexes| == |c.values| == |c.reasons|
    && forall k :: 0 <= k < |c.indexes| ==>
         var e := r.entries[k];
         && e.index == c.indexes[k] && e.value == c.values[k] && c.indexes[k] < |a.members|
         && e.reference == (if o.dataReference then Some(a.members[c.indexes[k]]) else None)
         && e.reason == (if o.reasonForInclusion then Some(c.reasons[k]) else None)
  }

  // The octets sent are the access results of a report, which carries the entry.
  lemma SentIsReport(a: Attributes, c: Content)
    requires Covers(a, c) && ReadableResults(c.values) && |SentOctets(a, c)| < TWO_64 && !a.optFlds.segmentation
    ensures exists rs, r :: AreResults(SentOctets(a, c), rs) && IsReport(rs, r) && Carries(a, c, r)
  {
    hide AreResults, IsReport, Carries, DecodeResults, DecodeReport, SentOctets, ReadableResults;
    ReportRoundTrip(a, c);
    var rs := DecodeResults(SentOctets(a, c)).value;
    ResultsAreRead(SentOctets(a, c), rs);
    ReportIsRead(rs, Said(a, c));
    SaidCarries(a, c);
    assert AreResults(SentOctets(a, c), rs) && IsReport(rs, Said(a, c)) && Carries(a, c, Said(a, c));
  }

  lemma SaidCarries(a: Attributes, c: Content)
    requires Covers(a, c)
    ensures Carries(a, c, Said(a, c))
  {
    hide HasDigits, FromBE, ToBE;
    Powers();
    FromToBE(c.id, 8);
    DigitsAreRead(ToBE(c.id, 8), c.id);
  }
}
