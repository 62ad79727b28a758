/**
 Reports on the wire: what the server's `_send` writes and what the client's `decode_report`
 reads, down to the octets of the access results (`server/reporting.py`, `mms/report.py`).
 */
module ReportWire {
  import opened Octets
  import opened Ber
  import opened Data

  // --- bit strings -------------------------------------------------------------------------

  function Bit(flag: bool): nat {
    if flag then 1 else 0
  }

  // The number whose binary digits are `f`, first bit first.
  function BitsValue(f: seq<bool>): nat {
    if f == [] then 0 else 2 * BitsValue(f[..|f| - 1]) + Bit(f[|f| - 1])
  }

  // The low `n` binary digits of `v`.
  function Digits(v: nat, n: nat): (r: seq<bool>)
    ensures |r| == n
  {
    if n == 0 then [] else Digits(v / 2, n - 1) + [v % 2 == 1]
  }

  function Pow2(n: nat): nat {
    if n == 0 then 1 else 2 * Pow2(n - 1)
  }

  lemma {:induction false} BitsValueBound(f: seq<bool>)
    ensures BitsValue(f) < Pow2(|f|)
  {
    if f != [] {
      BitsValueBound(f[..|f| - 1]);
    }
  }

  function BitsOfOctet(b: Octet): (r: seq<bool>)
    ensures |r| == 8
  {
    Digits(b, 8)
  }

  function OctetOfBits(f: seq<bool>): Octet
    requires |f| == 8
  {
    BitsValueBound(f);
    OctetSize();
    BitsValue(f)
  }

  lemma OctetSize()
    ensures Pow2(8) == 256
  {
    assert Pow2(4) == 16;
  }

  function AllBits(s: Bytes): (r: seq<bool>)
    ensures |r| == 8 * |s|
  {
    if s == [] then [] else BitsOfOctet(s[0]) + AllBits(s[1..])
  }

  // A Python slice [:n], whose negative bound counts from the end.
  function SliceTo<T>(s: seq<T>, n: int): seq<T> {
    if n >= |s| then s else if n >= 0 then s[..n] else if |s| + n > 0 then s[..|s| + n] else []
  }

  // `bits_of`.
  function BitsOf(bits: Bytes, unused: nat): seq<bool> {
    var all := AllBits(bits);
    if unused == 0 then all else SliceTo(all, |all| - unused)
  }

  function Padded(flags: seq<bool>): seq<bool>
    requires |flags| <= 8
  {
    flags + seq(8 - |flags|, _ => false)
  }

  // `bitstring_of`, octet by octet.
  function Packed(flags: seq<bool>): (s: Bytes)
    ensures |s| == (|flags| + 7) / 8
  {
    if flags == [] then []
    else if |flags| <= 8 then [OctetOfBits(Padded(flags))]
    else [OctetOfBits(flags[..8])] + Packed(flags[8..])
  }

  function Unused(flags: seq<bool>): nat {
    UnusedOf(|flags|)
  }

  function UnusedOf(n: nat): nat {
    (8 - n % 8) % 8
  }

  lemma UnusedCases(n: nat)
    ensures n == 0 ==> UnusedOf(n) == 0
    ensures 0 < n <= 8 ==> UnusedOf(n) == 8 - n
    ensures n > 8 ==> UnusedOf(n) == UnusedOf(n - 8)
  {
    if n > 8 {
      assert n % 8 == (n - 8) % 8;
    }
  }

  lemma {:induction false} DigitsRoundTrip(f: seq<bool>)
    ensures Digits(BitsValue(f), |f|) == f
  {
    if f != [] {
      DigitsRoundTrip(f[..|f| - 1]);
    }
  }

  lemma OctetRoundTrip(f: seq<bool>)
    requires |f| == 8
    ensures BitsOfOctet(OctetOfBits(f)) == f
  {
    hide Digits, BitsValue;
    DigitsRoundTrip(f);
  }

  lemma FirstOctet(b: Octet, rest: Bytes)
    ensures AllBits([b] + rest) == BitsOfOctet(b) + AllBits(rest)
  {
    hide BitsOfOctet;
    assert ([b] + rest)[1..] == rest;
  }

  lemma NoBits()
    ensures AllBits(Packed([])) == []
  {
  }

  lemma PackedShort(flags: seq<bool>)
    requires 0 < |flags| <= 8
    ensures AllBits(Packed(flags)) == flags + seq(Unused(flags), _ => false)
  {
    hide BitsOfOctet, OctetOfBits, AllBits, UnusedOf;
    var padded := Padded(flags);
    OctetRoundTrip(padded);
    FirstOctet(OctetOfBits(padded), []);
    assert AllBits([]) == [];
    assert Packed(flags) == [OctetOfBits(padded)] + [];
    UnusedCases(|flags|);
  }

  lemma PackedLong(flags: seq<bool>)
    requires |flags| > 8
    ensures AllBits(Packed(flags)) == flags[..8] + AllBits(Packed(flags[8..])) && Unused(flags) == Unused(flags[8..])
  {
    hide BitsOfOctet, OctetOfBits, AllBits, UnusedOf;
    OctetRoundTrip(flags[..8]);
    FirstOctet(OctetOfBits(flags[..8]), Packed(flags[8..]));
    UnusedCases(|flags|);
  }

  lemma {:induction false} PackedBits(flags: seq<bool>)
    ensures AllBits(Packed(flags)) == flags + seq(Unused(flags), _ => false)
  {
    NoBits();
    UnusedCases(|flags|);
    hide AllBits, Packed, UnusedOf;
    if flags == [] {
    } else if |flags| <= 8 {
      PackedShort(flags);
    } else {
      PackedLong(flags);
      PackedBits(flags[8..]);
      assert flags == flags[..8] + flags[8..];
    }
  }

  // Bits packed are read back, whatever their number.
  lemma BitsRoundTrip(flags: seq<bool>)
    ensures BitsOf(Packed(flags), Unused(flags)) == flags
  {
    hide AllBits;
    PackedBits(flags);
  }

  // 0x80 shifted right by `i`.
  function Mask(i: nat): nat
    requires i < 8
  {
    Pow2(7 - i)
  }

  // `bitstring_of` as it sets bits: each flag its own bit of a zeroed array.
  method PackBits(flags: seq<bool>) returns (s: Bytes, unused: nat)
    ensures s == Packed(flags) && unused == Unused(flags)
  {
    s := seq((|flags| + 7) / 8, _ => 0);
    NothingSet(flags);
    for i := 0 to |flags|
      invariant s == Packed(SetSoFar(flags, i))
    {
      BitSet(flags, i);
      if flags[i] {
        s := s[i / 8 := s[i / 8] + Mask(i % 8)];
      }
    }
    assert SetSoFar(flags, |flags|) == flags;
    unused := (8 - |flags| % 8) % 8;
  }

  ghost function SetSoFar(flags: seq<bool>, i: nat): (r: seq<bool>)
    requires i <= |flags|
    ensures |r| == |flags|
  {
    flags[..i] + seq(|flags| - i, _ => false)
  }

  lemma {:induction false} NoDigits(n: nat)
    ensures BitsValue(seq(n, _ => false)) == 0
  {
    if n > 0 {
      NoDigits(n - 1);
      assert seq(n, _ => false)[..n - 1] == seq(n - 1, _ => false);
    }
  }

  lemma {:induction false} NothingSet(flags: seq<bool>)
    ensures Packed(SetSoFar(flags, 0)) == seq((|flags| + 7) / 8, _ => 0)
  {
    hide BitsValue;
    NoDigits(8);
    var f := SetSoFar(flags, 0);
    assert f == seq(|flags|, _ => false);
    if |flags| > 8 {
      NothingSet(flags[8..]);
      assert f[8..] == SetSoFar(flags[8..], 0);
      assert f[..8] == seq(8, _ => false);
    } else if flags != [] {
      assert Padded(f) == seq(8, _ => false);
    }
  }

  // Setting bit `i` changes its octet by its mask, and no other.
  lemma {:induction false} PackedWith(f: seq<bool>, i: nat)
    requires i < |f| && !f[i]
    ensures i / 8 < |Packed(f)| && Packed(f)[i / 8] + Mask(i % 8) < 256
    ensures Packed(f[i := true]) == Packed(f)[i / 8 := Packed(f)[i / 8] + Mask(i % 8)]
  {
    hide OctetOfBits, Mask;
    if |f| <= 8 {
      OneBit(Padded(f), i);
      assert Padded(f)[i := true] == Padded(f[i := true]);
    } else if i < 8 {
      OneBit(f[..8], i);
      assert f[i := true][..8] == f[..8][i := true] && f[i := true][8..] == f[8..];
    } else {
      PackedWith(f[8..], i - 8);
      assert f[i := true][..8] == f[..8] && f[i := true][8..] == f[8..][i - 8 := true];
      assert i / 8 == (i - 8) / 8 + 1 && i % 8 == (i - 8) % 8;
    }
  }

  lemma BitSet(flags: seq<bool>, i: nat)
    requires i < |flags|
    ensures var before := Packed(SetSoFar(flags, i));
            && i / 8 < |before|
            && before[i / 8] + Mask(i % 8) < 256
            && Packed(SetSoFar(flags, i + 1))
               == if flags[i] then before[i / 8 := before[i / 8] + Mask(i % 8)] else before
  {
    hide Packed, Mask;
    var f := SetSoFar(flags, i);
    PackedWith(f, i);
    assert SetSoFar(flags, i + 1) == if flags[i] then f[i := true] else f;
  }

  lemma {:induction false} OneDigit(f: seq<bool>, i: nat)
    requires i < |f| && !f[i]
    ensures BitsValue(f[i := true]) == BitsValue(f) + Pow2(|f| - 1 - i)
  {
    var n := |f| - 1;
    if i == n {
      assert f[i := true][..n] == f[..n];
    } else {
      OneDigit(f[..n], i);
      assert f[i := true][..n] == f[..n][i := true];
    }
  }

  lemma OneBit(f: seq<bool>, i: nat)
    requires |f| == 8 && i < 8 && !f[i]
    ensures OctetOfBits(f[i := true]) == OctetOfBits(f) + Mask(i)
  {
    hide BitsValue, Pow2;
    OneDigit(f, i);
  }

  // --- flags -------------------------------------------------------------------------------

  datatype OptFlds = OptFlds(sequenceNumber: bool, reportTimeStamp: bool, reasonForInclusion: bool, dataSetName: bool,
                             dataReference: bool, bufferOverflow: bool, entryId: bool, confRevision: bool,
                             segmentation: bool)

  datatype Reason = Reason(dataChange: bool, qualityChange: bool, dataUpdate: bool, integrity: bool,
                           generalInterrogation: bool, applicationTrigger: bool)

  // Bit 0 is reserved. Bits that are missing read as false, and those beyond are ignored.
  function OptFldsOf(bits: seq<bool>): OptFlds {
    var b := bits + seq(10, _ => false);
    OptFlds(b[1], b[2], b[3], b[4], b[5], b[6], b[7], b[8], b[9])
  }

  function OptFldsBits(o: OptFlds): (r: seq<bool>)
    ensures |r| == 10
  {
    [false, o.sequenceNumber, o.reportTimeStamp, o.reasonForInclusion, o.dataSetName, o.dataReference,
     o.bufferOverflow, o.entryId, o.confRevision, o.segmentation]
  }

  function ReasonOf(bits: seq<bool>): Reason {
    var b := bits + seq(7, _ => false);
    Reason(b[1], b[2], b[3], b[4], b[5], b[6])
  }

  function ReasonBits(r: Reason): (s: seq<bool>)
    ensures |s| == 7
  {
    [false, r.dataChange, r.qualityChange, r.dataUpdate, r.integrity, r.generalInterrogation, r.applicationTrigger]
  }

  function BitLeaf(flags: seq<bool>): Leaf {
    BitString(Packed(flags), Unused(flags))
  }

  lemma FlagsRoundTrip(o: OptFlds, r: Reason)
    ensures OptFldsOf(BitsOf(BitLeaf(OptFldsBits(o)).bits, BitLeaf(OptFldsBits(o)).unused)) == o
    ensures ReasonOf(BitsOf(BitLeaf(ReasonBits(r)).bits, BitLeaf(ReasonBits(r)).unused)) == r
  {
    hide BitsOf, Packed, Unused;
    BitsRoundTrip(OptFldsBits(o));
    BitsRoundTrip(ReasonBits(r));
  }

  // --- access results ----------------------------------------------------------------------

  datatype AccessResult = Failure(code: int) | Success(value: Value)

  const TAG_FAILURE: nat := 0x80

  function EncodeResult(r: AccessResult): Bytes {
    match r
    case Failure(code) => EncodeTlv(TAG_FAILURE, EncodeInteger(code))
    case Success(v) => EncodeData(v)
  }

  // `access_results`.
  function EncodeResults(rs: seq<AccessResult>): Bytes {
    if rs == [] then [] else EncodeResult(rs[0]) + EncodeResults(rs[1..])
  }

  function DecodeResult(t: Tlv): Result<AccessResult, BerError> {
    if t.tag == TAG_FAILURE then (if t.value == [] then Err(EmptyInteger) else Ok(Failure(SignedBE(t.value))))
    else
      match DecodeData(t.tag, t.value)
      case Err(e) => Err(e)
      case Ok(v) => Ok(Success(v))
  }

  // `_decode_access_results`.
  function DecodeResults(s: Bytes): Result<seq<AccessResult>, BerError> {
    if s == [] then Ok([])
    else
      match TlvOf(s)
      case Err(e) => Err(e)
      case Ok(t) =>
        match DecodeResult(t)
        case Err(e) => Err(e)
        case Ok(r) =>
          match DecodeResults(s[t.end..])
          case Err(e) => Err(e)
          case Ok(rest) => Ok([r] + rest)
  }

  lemma {:induction false} ResultsConcat(a: seq<AccessResult>, b: seq<AccessResult>)
    ensures EncodeResults(a + b) == EncodeResults(a) + EncodeResults(b)
  {
    if a == [] {
      assert a + b == b;
    } else {
      assert (a + b)[1..] == a[1..] + b;
      ResultsConcat(a[1..], b);
    }
  }

  ghost predicate ReadableResult(r: AccessResult) {
    r.Success? ==> LeavesOf(r.value, Readable)
  }

  ghost predicate ReadableResults(rs: seq<AccessResult>) {
    forall i :: 0 <= i < |rs| ==> ReadableResult(rs[i])
  }

  lemma ResultRoundTrip(r: AccessResult, rest: Bytes)
    requires ReadableResult(r) && |EncodeResult(r)| < TWO_64
    ensures TlvOf(EncodeResult(r) + rest).Ok?
    ensures var t := TlvOf(EncodeResult(r) + rest).value; t.end == |EncodeResult(r)| && DecodeResult(t) == Ok(r)
  {
    hide TlvOf, EncodeTlv, EncodeInteger, SignedBE, DecodeData, LeavesOf, DecodeLeaf, LeafContent;
    match r
    case Failure(code) =>
      ShortTag(TAG_FAILURE);
      ContentFits(TAG_FAILURE, EncodeInteger(code));
      TlvRoundTrip(TAG_FAILURE, EncodeInteger(code), rest);
      IntegerRoundTrip(code);
    case Success(v) =>
      DataRoundTrip(v, rest);
      NoFailureTag(v);
  }

  lemma NoFailureTag(v: Value)
    requires LeavesOf(v, Readable)
    ensures Tag(v) != TAG_FAILURE
  {
  }

  // Access results are read back as they were written.
  lemma {:induction false} ResultsRoundTrip(rs: seq<AccessResult>)
    requires ReadableResults(rs) && |EncodeResults(rs)| < TWO_64
    ensures DecodeResults(EncodeResults(rs)) == Ok(rs)
  {
    hide TlvOf, EncodeResult, DecodeResult;
    if rs != [] {
      var head, rest := EncodeResult(rs[0]), EncodeResults(rs[1..]);
      ResultRoundTrip(rs[0], rest);
      assert rs == [rs[0]] + rs[1..];
      ResultsRoundTrip(rs[1..]);
      assert (head + rest)[|head|..] == rest;
    }
  }

  // --- the client --------------------------------------------------------------------------

  datatype ReportError = EndsEarly | AccessError | WrongKind | Trailing

  datatype Parse<+T> = Parsed(value: T) | Malformed(error: ReportError) {
    predicate IsFailure() {
      Malformed?
    }

    function PropagateFailure<U>(): Parse<U>
      requires Malformed?
    {
      Malformed(error)
    }

    function Extract(): T
      requires Parsed?
    {
      value
    }
  }

  datatype Kind = AVisibleString | ABitString | ATime | ABool | AnOctetString | AUInt

  predicate AllAre(ls: seq<Leaf>, k: Kind) {
    forall i :: 0 <= i < |ls| ==> Is(ls[i], k)
  }

  predicate Is(l: Leaf, k: Kind) {
    match k
    case AVisibleString => l.VisibleString?
    case ABitString => l.BitString?
    case ATime => l.UtcTime? || l.BinaryTime?
    case ABool => l.Bool?
    case AnOctetString => l.OctetString?
    case AUInt => l.UInt?
  }

  // The next result, of a given kind.
  function Take(rs: seq<AccessResult>, k: Kind): (r: Parse<(Leaf, seq<AccessResult>)>)
    ensures r.Parsed? ==> Is(r.value.0, k) && |r.value.1| < |rs|
  {
    if rs == [] then Malformed(EndsEarly)
    else
      match rs[0]
      case Failure(_) => Malformed(AccessError)
      case Success(v) => if v.Single? && Is(v.leaf, k) then Parsed((v.leaf, rs[1..])) else Malformed(WrongKind)
  }

  // An unsigned field, which some servers send as an integer.
  function TakeUInt(rs: seq<AccessResult>): Parse<(int, seq<AccessResult>)> {
    if rs != [] && rs[0].Success? && rs[0].value.Single? && rs[0].value.leaf.Int? then
      Parsed((rs[0].value.leaf.value, rs[1..]))
    else
      var (l, rest) :- Take(rs, AUInt);
      Parsed((l.magnitude, rest))
  }

  function TakeIf(present: bool, rs: seq<AccessResult>, k: Kind): (r: Parse<(Option<Leaf>, seq<AccessResult>)>)
    ensures r.Parsed? ==> (present <==> r.value.0.Some?) && (present ==> Is(r.value.0.value, k))
  {
    if !present then Parsed((None, rs))
    else
      var (l, rest) :- Take(rs, k);
      Parsed((Some(l), rest))
  }

  function TakeUIntIf(present: bool, rs: seq<AccessResult>): Parse<(Option<int>, seq<AccessResult>)> {
    if !present then Parsed((None, rs))
    else
      var (n, rest) :- TakeUInt(rs);
      Parsed((Some(n), rest))
  }

  function TakeAll(rs: seq<AccessResult>, n: nat, k: Kind): (r: Parse<(seq<Leaf>, seq<AccessResult>)>)
    ensures r.Parsed? ==> |r.value.0| == n && AllAre(r.value.0, k)
  {
    if n == 0 then Parsed(([], rs))
    else
      var (l, rest) :- Take(rs, k);
      var (ls, after) :- TakeAll(rest, n - 1, k);
      Parsed(([l] + ls, after))
  }

  datatype ReportEntry = ReportEntry(index: nat, value: AccessResult, reference: Option<Bytes>, reason: Option<Reason>)

  datatype ReportHead = ReportHead(rptId: Bytes, opt: OptFlds, seqNum: Option<int>, timeOfEntry: Option<Leaf>,
                                   dataSet: Option<Bytes>, bufOvfl: Option<bool>, entryId: Option<Bytes>,
                                   confRev: Option<int>, subSeqNum: Option<int>, moreSegments: Option<bool>)

  datatype Report = Report(head: ReportHead, inclusion: seq<bool>, entries: seq<ReportEntry>)

  function OctetsOf(l: Option<Leaf>): Option<Bytes>
    requires l.Some? ==> Is(l.value, AVisibleString) || Is(l.value, AnOctetString)
  {
    if l.None? then None else Some(l.value.octets)
  }

  function FlagOf(l: Option<Leaf>): Option<bool>
    requires l.Some? ==> Is(l.value, ABool)
  {
    if l.None? then None else Some(l.value.flag)
  }

  datatype Front = Front(rptId: Bytes, opt: OptFlds, seqNum: Option<int>, timeOfEntry: Option<Leaf>,
                         dataSet: Option<Bytes>)

  function DecodeFront(rs: seq<AccessResult>): Parse<(Front, seq<AccessResult>)> {
    var (rptId, rs1) :- Take(rs, AVisibleString);
    var (bits, rs2) :- Take(rs1, ABitString);
    var opt := OptFldsOf(BitsOf(bits.bits, bits.unused));
    var (seqNum, rs3) :- TakeUIntIf(opt.sequenceNumber, rs2);
    var (time, rs4) :- TakeIf(opt.reportTimeStamp, rs3, ATime);
    var (dataSet, rs5) :- TakeIf(opt.dataSetName, rs4, AVisibleString);
    Parsed((Front(rptId.octets, opt, seqNum, time, OctetsOf(dataSet)), rs5))
  }

  function DecodeBack(f: Front, rs5: seq<AccessResult>): Parse<(ReportHead, seq<AccessResult>)> {
    var (bufOvfl, rs6) :- TakeIf(f.opt.bufferOverflow, rs5, ABool);
    var (entryId, rs7) :- TakeIf(f.opt.entryId, rs6, AnOctetString);
    var (confRev, rs8) :- TakeUIntIf(f.opt.confRevision, rs7);
    var (subSeq, rs9) :- TakeUIntIf(f.opt.segmentation, rs8);
    var (more, rs10) :- TakeIf(f.opt.segmentation, rs9, ABool);
    Parsed((ReportHead(f.rptId, f.opt, f.seqNum, f.timeOfEntry, f.dataSet, FlagOf(bufOvfl), OctetsOf(entryId), confRev,
                       subSeq, FlagOf(more)), rs10))
  }

  // The fields before the inclusion bits, each present when its bit of OptFlds is set.
  function DecodeHead(rs: seq<AccessResult>): Parse<(ReportHead, seq<AccessResult>)> {
    var (front, rs5) :- DecodeFront(rs);
    DecodeBack(front, rs5)
  }

  // The positions of the bits that are set.
  function Set(bits: seq<bool>): (r: seq<nat>)
    ensures forall i :: 0 <= i < |r| ==> r[i] < |bits|
  {
    if bits == [] then []
    else Set(bits[..|bits| - 1]) + (if bits[|bits| - 1] then [|bits| - 1] else [])
  }

  function EntriesOf(indexes: seq<nat>, refs: Option<seq<Leaf>>, values: seq<AccessResult>, reasons: Option<seq<Leaf>>)
    : (r: seq<ReportEntry>)
    requires |values| == |indexes|
    requires refs.Some? ==> |refs.value| == |indexes| && AllAre(refs.value, AVisibleString)
    requires reasons.Some? ==> |reasons.value| == |indexes| && AllAre(reasons.value, ABitString)
    ensures |r| == |indexes|
  {
    seq(|indexes|, i requires 0 <= i < |indexes| =>
      ReportEntry(indexes[i], values[i],
                  if refs.Some? then Some(refs.value[i].octets) else None,
                  if reasons.Some? then Some(ReasonOf(BitsOf(reasons.value[i].bits, reasons.value[i].unused))) else None))
  }

  function TakeAllIf(present: bool, rs: seq<AccessResult>, n: nat, k: Kind)
    : (r: Parse<(Option<seq<Leaf>>, seq<AccessResult>)>)
    ensures r.Parsed? && present ==> r.value.0.Some? && |r.value.0.value| == n && AllAre(r.value.0.value, k)
    ensures r.Parsed? && !present ==> r.value.0.None?
  {
    if !present then Parsed((None, rs))
    else
      var (ls, rest) :- TakeAll(rs, n, k);
      Parsed((Some(ls), rest))
  }

  // `decode_report`.
  function DecodeReport(rs: seq<AccessResult>): Parse<Report> {
    var (head, rs1) :- DecodeHead(rs);
    var (bits, rs2) :- Take(rs1, ABitString);
    var inclusion := BitsOf(bits.bits, bits.unused);
    var indexes := Set(inclusion);
    var n := |indexes|;
    var (refs, rs3) :- TakeAllIf(head.opt.dataReference, rs2, n, AVisibleString);
    if |rs3| < n then Malformed(EndsEarly)
    else
      var (reasons, rest) :- TakeAllIf(head.opt.reasonForInclusion, rs3[n..], n, ABitString);
      if rest != [] then Malformed(Trailing)
      else Parsed(Report(head, inclusion, EntriesOf(indexes, refs, rs3[..n], reasons)))
  }

  // --- the server --------------------------------------------------------------------------

  // The attributes of a block a report carries.
  datatype Attributes = Attributes(rptId: Bytes, optFlds: OptFlds, sqNum: nat, datSet: Bytes, confRev: nat,
                                   buffered: bool, overflowed: bool, members: seq<Bytes>)

  // What an entry holds: the places of its members in the data set, in order, each with its
  // value and its reason.
  datatype Content = Content(id: nat, time: Bytes, indexes: seq<nat>, values: seq<AccessResult>, reasons: seq<Reason>)

  predicate Ascending(s: seq<nat>) {
    forall i, j :: 0 <= i < j < |s| ==> s[i] < s[j]
  }

  // An entry of the data set of a block.
  predicate Covers(a: Attributes, c: Content) {
    && |c.values| == |c.reasons| == |c.indexes| && Ascending(c.indexes)
    && (forall i :: 0 <= i < |c.indexes| ==> c.indexes[i] < |a.members|)
    && |c.time| == 6 && c.id < TWO_64
  }

  // An unbuffered report has no BufOvfl and no EntryID.
  function SentOptFlds(a: Attributes): OptFlds {
    if a.buffered then a.optFlds else a.optFlds.(bufferOverflow := false, entryId := false)
  }

  function One(l: Leaf): seq<AccessResult> {
    [Success(Single(l))]
  }

  function OneIf(present: bool, l: Leaf): seq<AccessResult> {
    if present then One(l) else []
  }

  function Leaves(ls: seq<Leaf>): (r: seq<AccessResult>)
    ensures |r| == |ls|
  {
    seq(|ls|, i requires 0 <= i < |ls| => Success(Single(ls[i])))
  }

  function Inclusion(a: Attributes, c: Content): seq<bool> {
    seq(|a.members|, i => i in c.indexes)
  }

  function References(a: Attributes, c: Content): seq<Leaf>
    requires Covers(a, c)
  {
    seq(|c.indexes|, i requires 0 <= i < |c.indexes| => VisibleString(a.members[c.indexes[i]]))
  }

  function ReasonLeaves(reasons: seq<Reason>): (r: seq<Leaf>)
    ensures |r| == |reasons|
  {
    seq(|reasons|, i requires 0 <= i < |reasons| => BitLeaf(ReasonBits(reasons[i])))
  }

  // The fields of OptFlds, then `more`.
  function HeadThen(a: Attributes, c: Content, more: seq<AccessResult>): seq<AccessResult> {
    var opt := SentOptFlds(a);
    One(VisibleString(a.rptId)) + (One(BitLeaf(OptFldsBits(opt)))
    + (OneIf(opt.sequenceNumber, UInt(a.sqNum)) + (OneIf(opt.reportTimeStamp, BinaryTime(c.time))
    + (OneIf(opt.dataSetName, VisibleString(a.datSet)) + (OneIf(opt.bufferOverflow, Bool(a.overflowed))
    + (OneIf(opt.entryId, OctetString(ToBE(c.id, 8))) + (OneIf(opt.confRevision, UInt(a.confRev)) + more)))))))
  }

  function LeavesIf(present: bool, ls: seq<Leaf>): seq<AccessResult> {
    if present then Leaves(ls) else []
  }

  // The results before those of the entry.
  function OwnResults(a: Attributes, c: Content): seq<AccessResult>
    requires Covers(a, c)
  {
    HeadThen(a, c, One(BitLeaf(Inclusion(a, c))) + LeavesIf(SentOptFlds(a).dataReference, References(a, c)))
  }

  // What `_send` writes: its own results, then the entry's, encoded when it was made.
  function SentOctets(a: Attributes, c: Content): Bytes
    requires Covers(a, c)
  {
    EncodeResults(OwnResults(a, c))
    + (EncodeResults(c.values)
       + EncodeResults(LeavesIf(SentOptFlds(a).reasonForInclusion, ReasonLeaves(c.reasons))))
  }

  // What the report says.
  function Said(a: Attributes, c: Content): Report
    requires Covers(a, c)
  {
    var opt := SentOptFlds(a);
    Report(
      ReportHead(a.rptId, opt,
                 if opt.sequenceNumber then Some(a.sqNum) else None,
                 if opt.reportTimeStamp then Some(BinaryTime(c.time)) else None,
                 if opt.dataSetName then Some(a.datSet) else None,
                 if opt.bufferOverflow then Some(a.overflowed) else None,
                 if opt.entryId then Some(ToBE(c.id, 8)) else None,
                 if opt.confRevision then Some(a.confRev) else None,
                 None, None),
      Inclusion(a, c),
      seq(|c.indexes|, i requires 0 <= i < |c.indexes| =>
        ReportEntry(c.indexes[i], c.values[i],
                    if opt.dataReference then Some(a.members[c.indexes[i]]) else None,
                    if opt.reasonForInclusion then Some(c.reasons[i]) else None)))
  }

  lemma TakeOne(l: Leaf, k: Kind, rest: seq<AccessResult>)
    requires Is(l, k)
    ensures Take(One(l) + rest, k) == Parsed((l, rest))
  {
    assert (One(l) + rest)[1..] == rest;
  }

  lemma TakeOneIf(present: bool, l: Leaf, k: Kind, rest: seq<AccessResult>)
    requires Is(l, k)
    ensures TakeIf(present, OneIf(present, l) + rest, k) == Parsed((if present then Some(l) else None, rest))
  {
    TakeOne(l, k, rest);
    assert [] + rest == rest;
  }

  lemma TakeOneUInt(present: bool, n: nat, rest: seq<AccessResult>)
    ensures TakeUIntIf(present, OneIf(present, UInt(n)) + rest) == Parsed((if present then Some(n) else None, rest))
  {
    TakeOne(UInt(n), AUInt, rest);
    assert [] + rest == rest;
  }

  lemma {:induction false} TakeLeaves(ls: seq<Leaf>, k: Kind, rest: seq<AccessResult>)
    requires AllAre(ls, k)
    ensures TakeAll(Leaves(ls) + rest, |ls|, k) == Parsed((ls, rest))
  {
    if ls == [] {
      assert Leaves(ls) + rest == rest;
    } else {
      TakeLeaves(ls[1..], k, rest);
      assert Leaves(ls) + rest == One(ls[0]) + (Leaves(ls[1..]) + rest);
      TakeOne(ls[0], k, Leaves(ls[1..]) + rest);
      assert [ls[0]] + ls[1..] == ls;
    }
  }

  lemma RoomFor(indexes: seq<nat>, n: nat)
    requires indexes != [] && forall i :: 0 <= i < |indexes| ==> indexes[i] < n
    ensures n > 0
  {
    assert indexes[0] < n;
  }

  lemma LastBit(indexes: seq<nat>, n: nat, shorter: seq<nat>)
    requires Ascending(indexes) && n > 0 && forall i :: 0 <= i < |indexes| ==> indexes[i] < n
    requires shorter == if n - 1 in indexes then indexes[..|indexes| - 1] else indexes
    ensures forall i :: 0 <= i < |shorter| ==> shorter[i] < n - 1
    ensures Ascending(shorter)
    ensures n - 1 in indexes ==> indexes == shorter + [n - 1]
    ensures seq(n, i => i in indexes)[..n - 1] == seq(n - 1, i => i in shorter)
  {
    if n - 1 in indexes {
      assert indexes[|indexes| - 1] == n - 1;
      assert indexes == shorter + [n - 1];
    }
  }

  // An ascending list of positions is that of the bits it sets.
  lemma {:induction false} SetOfIndexes(indexes: seq<nat>, n: nat)
    requires Ascending(indexes) && forall i :: 0 <= i < |indexes| ==> indexes[i] < n
    ensures Set(seq(n, i => i in indexes)) == indexes
    decreases n
  {
    if indexes != [] {
      RoomFor(indexes, n);
    }
    hide Set, Ascending;
    if n > 0 {
      var shorter := if n - 1 in indexes then indexes[..|indexes| - 1] else indexes;
      LastBit(indexes, n, shorter);
      SetOfIndexes(shorter, n - 1);
      SetOfOneMore(seq(n, i => i in indexes));
    } else {
      NoneSet(indexes);
    }
  }

  lemma SetOfOneMore(bits: seq<bool>)
    requires bits != []
    ensures Set(bits) == Set(bits[..|bits| - 1]) + (if bits[|bits| - 1] then [|bits| - 1] else [])
  {
  }

  lemma NoneSet(indexes: seq<nat>)
    ensures Set(seq(0, i => i in indexes)) == []
  {
  }

  function SaidHead(a: Attributes, c: Content): ReportHead
    requires Covers(a, c)
  {
    Said(a, c).head
  }

  function BackThen(a: Attributes, c: Content, more: seq<AccessResult>): seq<AccessResult> {
    var opt := SentOptFlds(a);
    OneIf(opt.bufferOverflow, Bool(a.overflowed))
    + (OneIf(opt.entryId, OctetString(ToBE(c.id, 8))) + (OneIf(opt.confRevision, UInt(a.confRev)) + more))
  }

  function SaidFront(a: Attributes, c: Content): Front
    requires Covers(a, c)
  {
    var h := SaidHead(a, c);
    Front(h.rptId, h.opt, h.seqNum, h.timeOfEntry, h.dataSet)
  }

  lemma FrontRoundTrip(a: Attributes, c: Content, more: seq<AccessResult>)
    requires Covers(a, c)
    ensures DecodeFront(HeadThen(a, c, more)) == Parsed((SaidFront(a, c), BackThen(a, c, more)))
  {
    hide Packed, Unused, BitsOf, OptFldsOf, TakeIf, TakeUIntIf, OneIf, One, OptFldsBits;
    var opt := SentOptFlds(a);
    FlagsRoundTrip(opt, Reason(false, false, false, false, false, false));
    var s6 := BackThen(a, c, more);
    var s5 := OneIf(opt.dataSetName, VisibleString(a.datSet)) + s6;
    var s4 := OneIf(opt.reportTimeStamp, BinaryTime(c.time)) + s5;
    var s3 := OneIf(opt.sequenceNumber, UInt(a.sqNum)) + s4;
    var s2 := One(BitLeaf(OptFldsBits(opt))) + s3;
    TakeOne(VisibleString(a.rptId), AVisibleString, s2);
    TakeOne(BitLeaf(OptFldsBits(opt)), ABitString, s3);
    TakeOneUInt(opt.sequenceNumber, a.sqNum, s4);
    TakeOneIf(opt.reportTimeStamp, BinaryTime(c.time), ATime, s5);
    TakeOneIf(opt.dataSetName, VisibleString(a.datSet), AVisibleString, s6);
  }

  lemma BackRoundTrip(a: Attributes, c: Content, flags: seq<bool>, rest: seq<AccessResult>)
    requires Covers(a, c)
    ensures DecodeBack(SaidFront(a, c), BackThen(a, c, One(BitLeaf(flags)) + rest))
         == if a.optFlds.segmentation then Malformed(WrongKind) else Parsed((SaidHead(a, c), One(BitLeaf(flags)) + rest))
  {
    hide TakeIf, TakeUIntIf, OneIf, One, BitLeaf;
    var opt := SentOptFlds(a);
    var more := One(BitLeaf(flags)) + rest;
    var s8 := OneIf(opt.confRevision, UInt(a.confRev)) + more;
    var s7 := OneIf(opt.entryId, OctetString(ToBE(c.id, 8))) + s8;
    TakeOneIf(opt.bufferOverflow, Bool(a.overflowed), ABool, s7);
    TakeOneIf(opt.entryId, OctetString(ToBE(c.id, 8)), AnOctetString, s8);
    TakeOneUInt(opt.confRevision, a.confRev, more);
    NoSegments(opt.segmentation, flags, rest);
  }

  // The head is read back, unless OptFlds asks for segmentation: the server never writes
  // its two fields, and the client stumbles over what comes in their place.
  lemma HeadRoundTrip(a: Attributes, c: Content, flags: seq<bool>, rest: seq<AccessResult>)
    requires Covers(a, c)
    ensures DecodeHead(HeadThen(a, c, One(BitLeaf(flags)) + rest))
         == if a.optFlds.segmentation then Malformed(WrongKind) else Parsed((SaidHead(a, c), One(BitLeaf(flags)) + rest))
  {
    hide DecodeFront, DecodeBack, HeadThen, BackThen, One;
    FrontRoundTrip(a, c, One(BitLeaf(flags)) + rest);
    BackRoundTrip(a, c, flags, rest);
  }

  lemma NoSegments(present: bool, flags: seq<bool>, rest: seq<AccessResult>)
    ensures var more := One(BitLeaf(flags)) + rest;
            && TakeUIntIf(present, more) == (if present then Malformed(WrongKind) else Parsed((None, more)))
            && (!present ==> TakeIf(present, more, ABool) == Parsed((None, more)))
  {
    var more := One(BitLeaf(flags)) + rest;
    assert more[0] == Success(Single(BitLeaf(flags)));
  }

  lemma HeadThenConcat(a: Attributes, c: Content, more: seq<AccessResult>, rest: seq<AccessResult>)
    ensures HeadThen(a, c, more) + rest == HeadThen(a, c, more + rest)
  {
    hide One, OneIf, BitLeaf, OptFldsBits;
  }

  // Every result of a report.
  function AllResults(a: Attributes, c: Content): seq<AccessResult>
    requires Covers(a, c)
  {
    HeadThen(a, c, One(BitLeaf(Inclusion(a, c))) + (LeavesIf(SentOptFlds(a).dataReference, References(a, c))
                   + (c.values + LeavesIf(SentOptFlds(a).reasonForInclusion, ReasonLeaves(c.reasons)))))
  }

  // The octets sent are those results', although the entry's were encoded apart.
  lemma SentIsEncoded(a: Attributes, c: Content)
    requires Covers(a, c)
    ensures SentOctets(a, c) == EncodeResults(AllResults(a, c))
  {
    hide EncodeResults, HeadThen, One, LeavesIf;
    var refs := LeavesIf(SentOptFlds(a).dataReference, References(a, c));
    var reasons := LeavesIf(SentOptFlds(a).reasonForInclusion, ReasonLeaves(c.reasons));
    var own := One(BitLeaf(Inclusion(a, c))) + refs;
    ResultsConcat(c.values, reasons);
    ResultsConcat(OwnResults(a, c), c.values + reasons);
    HeadThenConcat(a, c, own, c.values + reasons);
    assert own + (c.values + reasons) == One(BitLeaf(Inclusion(a, c))) + (refs + (c.values + reasons));
  }

  lemma TakeLeavesIf(present: bool, ls: seq<Leaf>, k: Kind, rest: seq<AccessResult>)
    requires AllAre(ls, k)
    ensures TakeAllIf(present, LeavesIf(present, ls) + rest, |ls|, k)
         == Parsed((if present then Some(ls) else None, rest))
  {
    if present {
      TakeLeaves(ls, k, rest);
    } else {
      assert [] + rest == rest;
    }
  }

  lemma EntriesAreSaid(a: Attributes, c: Content)
    requires Covers(a, c)
    ensures EntriesOf(c.indexes, if SentOptFlds(a).dataReference then Some(References(a, c)) else None, c.values,
                      if SentOptFlds(a).reasonForInclusion then Some(ReasonLeaves(c.reasons)) else None)
         == Said(a, c).entries
  {
    hide BitsOf, Packed, Unused, ReasonOf, ReasonBits;
    forall i | 0 <= i < |c.indexes|
      ensures var l := ReasonLeaves(c.reasons)[i]; l.BitString? && ReasonOf(BitsOf(l.bits, l.unused)) == c.reasons[i]
    {
      FlagsRoundTrip(a.optFlds, c.reasons[i]);
    }
  }

  lemma ResultsAreSaid(a: Attributes, c: Content)
    requires Covers(a, c)
    ensures DecodeReport(AllResults(a, c)) == if a.optFlds.segmentation then Malformed(WrongKind) else Parsed(Said(a, c))
  {
    hide HeadThen, DecodeHead, One, Take, TakeAllIf, LeavesIf, EntriesOf, BitsOf, Packed, Unused, Leaves;
    var opt := SentOptFlds(a);
    var reasons := LeavesIf(opt.reasonForInclusion, ReasonLeaves(c.reasons));
    var refs := LeavesIf(opt.dataReference, References(a, c));
    var entry := c.values + reasons;
    var flags := Inclusion(a, c);
    HeadRoundTrip(a, c, flags, refs + entry);
    if !a.optFlds.segmentation {
      TakeOne(BitLeaf(flags), ABitString, refs + entry);
      BitsRoundTrip(flags);
      SetOfIndexes(c.indexes, |a.members|);
      TakeLeavesIf(opt.dataReference, References(a, c), AVisibleString, entry);
      assert entry[|c.values|..] == reasons && entry[..|c.values|] == c.values;
      assert reasons + [] == reasons;
      TakeLeavesIf(opt.reasonForInclusion, ReasonLeaves(c.reasons), ABitString, []);
      EntriesAreSaid(a, c);
    }
  }

  lemma OwnLeaf(l: Leaf)
    requires l.VisibleString? || l.UInt? || l.Bool? || l.OctetString?
             || (l.BinaryTime? && |l.octets| == 6) || (l.BitString? && l.unused < 8)
    ensures ReadableResult(Success(Single(l)))
  {
  }

  lemma LeavesReadable(present: bool, ls: seq<Leaf>)
    requires forall i :: 0 <= i < |ls| ==> ReadableResult(Success(Single(ls[i])))
    ensures ReadableResults(LeavesIf(present, ls))
  {
    hide ReadableResult;
  }

  lemma ReadableConcat(a: seq<AccessResult>, b: seq<AccessResult>)
    requires ReadableResults(a) && ReadableResults(b)
    ensures ReadableResults(a + b)
  {
    hide ReadableResult;
  }

  lemma OneReadable(present: bool, l: Leaf, rest: seq<AccessResult>)
    requires ReadableResult(Success(Single(l))) && ReadableResults(rest)
    ensures ReadableResults(One(l) + rest) && ReadableResults(OneIf(present, l) + rest)
  {
    hide ReadableResult;
  }

  lemma HeadReadable(a: Attributes, c: Content, more: seq<AccessResult>)
    requires |c.time| == 6 && ReadableResults(more)
    ensures ReadableResults(HeadThen(a, c, more))
  {
    hide ReadableResult, ReadableResults, One, OneIf, Packed, OptFldsBits;
    var opt := SentOptFlds(a);
    OwnLeaf(VisibleString(a.rptId));
    OwnLeaf(BitLeaf(OptFldsBits(opt)));
    OwnLeaf(UInt(a.sqNum));
    OwnLeaf(BinaryTime(c.time));
    OwnLeaf(VisibleString(a.datSet));
    OwnLeaf(Bool(a.overflowed));
    OwnLeaf(OctetString(ToBE(c.id, 8)));
    OwnLeaf(UInt(a.confRev));
    var s8 := OneIf(opt.confRevision, UInt(a.confRev)) + more;
    var s7 := OneIf(opt.entryId, OctetString(ToBE(c.id, 8))) + s8;
    var s6 := OneIf(opt.bufferOverflow, Bool(a.overflowed)) + s7;
    var s5 := OneIf(opt.dataSetName, VisibleString(a.datSet)) + s6;
    var s4 := OneIf(opt.reportTimeStamp, BinaryTime(c.time)) + s5;
    var s3 := OneIf(opt.sequenceNumber, UInt(a.sqNum)) + s4;
    var s2 := One(BitLeaf(OptFldsBits(opt))) + s3;
    OneReadable(opt.confRevision, UInt(a.confRev), more);
    OneReadable(opt.entryId, OctetString(ToBE(c.id, 8)), s8);
    OneReadable(opt.bufferOverflow, Bool(a.overflowed), s7);
    OneReadable(opt.dataSetName, VisibleString(a.datSet), s6);
    OneReadable(opt.reportTimeStamp, BinaryTime(c.time), s5);
    OneReadable(opt.sequenceNumber, UInt(a.sqNum), s4);
    OneReadable(true, BitLeaf(OptFldsBits(opt)), s3);
    OneReadable(true, VisibleString(a.rptId), s2);
  }

  lemma AllReadable(a: Attributes, c: Content)
    requires Covers(a, c) && ReadableResults(c.values)
    ensures ReadableResults(AllResults(a, c))
  {
    hide ReadableResult, ReadableResults, One, OneIf, Packed, ReasonBits, LeavesIf, HeadThen, Inclusion;
    var opt := SentOptFlds(a);
    forall i | 0 <= i < |c.indexes|
      ensures ReadableResult(Success(Single(References(a, c)[i])))
    {
      OwnLeaf(References(a, c)[i]);
    }
    forall i | 0 <= i < |c.reasons|
      ensures ReadableResult(Success(Single(ReasonLeaves(c.reasons)[i])))
    {
      OwnLeaf(ReasonLeaves(c.reasons)[i]);
    }
    var refs := LeavesIf(opt.dataReference, References(a, c));
    var reasons := LeavesIf(opt.reasonForInclusion, ReasonLeaves(c.reasons));
    LeavesReadable(opt.dataReference, References(a, c));
    LeavesReadable(opt.reasonForInclusion, ReasonLeaves(c.reasons));
    ReadableConcat(c.values, reasons);
    ReadableConcat(refs, c.values + reasons);
    OwnLeaf(BitLeaf(Inclusion(a, c)));
    OneReadable(true, BitLeaf(Inclusion(a, c)), refs + (c.values + reasons));
    HeadReadable(a, c, One(BitLeaf(Inclusion(a, c))) + (refs + (c.values + reasons)));
  }

  // A report is read as it was sent, octets included, exactly when OptFlds does not ask for
  // segmentation.
  lemma ReportRoundTrip(a: Attributes, c: Content)
    requires Covers(a, c) && ReadableResults(c.values) && |SentOctets(a, c)| < TWO_64
    ensures DecodeResults(SentOctets(a, c)).Ok?
    ensures var r := DecodeReport(DecodeResults(SentOctets(a, c)).value);
            && (r == Parsed(Said(a, c)) <==> !a.optFlds.segmentation)
            && (a.optFlds.segmentation ==> r.Malformed?)
  {
    hide DecodeResults, DecodeReport, SentOctets, AllResults, ReadableResults, EncodeResults, Said;
    SentIsEncoded(a, c);
    AllReadable(a, c);
    ResultsRoundTrip(AllResults(a, c));
    ResultsAreSaid(a, c);
  }

  // --- the client's cursor -----------------------------------------------------------------

  // `take`, at a position it moves.
  method TakeAt(results: seq<AccessResult>, pos: nat, k: Kind) returns (r: Parse<Leaf>, next: nat)
    requires pos <= |results|
    ensures pos <= next <= |results|
    ensures Take(results[pos..], k) == match r
                                       case Malformed(e) => Malformed(e)
                                       case Parsed(l) => Parsed((l, results[next..]))
    ensures r.Parsed? ==> Is(r.value, k)
  {
    if pos >= |results| {
      return Malformed(EndsEarly), pos;
    }
    var value := results[pos];
    next := pos + 1;
    assert results[pos..][1..] == results[next..];
    match value
    case Failure(_) => r := Malformed(AccessError);
    case Success(v) => r := if v.Single? && Is(v.leaf, k) then Parsed(v.leaf) else Malformed(WrongKind);
  }

  method TakeUIntAt(results: seq<AccessResult>, pos: nat) returns (r: Parse<int>, next: nat)
    requires pos <= |results|
    ensures pos <= next <= |results|
    ensures TakeUInt(results[pos..]) == match r
                                        case Malformed(e) => Malformed(e)
                                        case Parsed(n) => Parsed((n, results[next..]))
  {
    if pos < |results| && results[pos].Success? && results[pos].value.Single? && results[pos].value.leaf.Int? {
      assert results[pos..][1..] == results[pos + 1..];
      return Parsed(results[pos].value.leaf.value), pos + 1;
    }
    var l;
    l, next := TakeAt(results, pos, AUInt);
    r := if l.Malformed? then Malformed(l.error) else Parsed(l.value.magnitude);
  }

  method TakeIfAt(present: bool, results: seq<AccessResult>, pos: nat, k: Kind)
    returns (r: Parse<Option<Leaf>>, next: nat)
    requires pos <= |results|
    ensures pos <= next <= |results|
    ensures TakeIf(present, results[pos..], k) == match r
                                                  case Malformed(e) => Malformed(e)
                                                  case Parsed(l) => Parsed((l, results[next..]))
    ensures r.Parsed? && r.value.Some? ==> Is(r.value.value, k)
  {
    if !present {
      return Parsed(None), pos;
    }
    var l;
    l, next := TakeAt(results, pos, k);
    r := if l.Malformed? then Malformed(l.error) else Parsed(Some(l.value));
  }

  method TakeUIntIfAt(present: bool, results: seq<AccessResult>, pos: nat)
    returns (r: Parse<Option<int>>, next: nat)
    requires pos <= |results|
    ensures pos <= next <= |results|
    ensures TakeUIntIf(present, results[pos..]) == match r
                                                   case Malformed(e) => Malformed(e)
                                                   case Parsed(n) => Parsed((n, results[next..]))
  {
    if !present {
      return Parsed(None), pos;
    }
    var n;
    n, next := TakeUIntAt(results, pos);
    r := if n.Malformed? then Malformed(n.error) else Parsed(Some(n.value));
  }

  // `out` was taken from `rs`, and `left` results of `rest` are still to be.
  ghost predicate Taking(rs: seq<AccessResult>, n: nat, k: Kind, out: seq<Leaf>, rest: seq<AccessResult>, left: nat) {
    TakeAll(rs, n, k) == match TakeAll(rest, left, k)
                         case Malformed(e) => Malformed(e)
                         case Parsed((ls, after)) => Parsed((out + ls, after))
  }

  lemma TakingStarts(rs: seq<AccessResult>, n: nat, k: Kind)
    ensures Taking(rs, n, k, [], rs, n)
  {
    hide TakeAll;
    var r := TakeAll(rs, n, k);
    if r.Parsed? {
      assert [] + r.value.0 == r.value.0;
    }
  }

  lemma TakingGoesOn(rs: seq<AccessResult>, n: nat, k: Kind, out: seq<Leaf>, rest: seq<AccessResult>, left: nat)
    requires Taking(rs, n, k, out, rest, left) && left > 0
    ensures match Take(rest, k)
            case Malformed(e) => TakeAll(rs, n, k) == Malformed(e)
            case Parsed((l, after)) => Taking(rs, n, k, out + [l], after, left - 1)
  {
    hide Take;
    var t := Take(rest, k);
    if t.Parsed? {
      var more := TakeAll(t.value.1, left - 1, k);
      if more.Parsed? {
        assert out + ([t.value.0] + more.value.0) == (out + [t.value.0]) + more.value.0;
      }
    }
  }

  lemma TakingEnds(rs: seq<AccessResult>, n: nat, k: Kind, out: seq<Leaf>, rest: seq<AccessResult>)
    requires Taking(rs, n, k, out, rest, 0)
    ensures TakeAll(rs, n, k) == Parsed((out, rest))
  {
    assert out + [] == out;
  }

  // `n` results of a kind, one after the other.
  method TakeAllAt(results: seq<AccessResult>, pos: nat, n: nat, k: Kind) returns (r: Parse<seq<Leaf>>, next: nat)
    requires pos <= |results|
    ensures pos <= next <= |results|
    ensures TakeAll(results[pos..], n, k) == match r
                                             case Malformed(e) => Malformed(e)
                                             case Parsed(ls) => Parsed((ls, results[next..]))
  {
    var out: seq<Leaf> := [];
    next := pos;
    TakingStarts(results[pos..], n, k);
    for i := 0 to n
      invariant pos <= next <= |results|
      invariant Taking(results[pos..], n, k, out, results[next..], n - i)
    {
      TakingGoesOn(results[pos..], n, k, out, results[next..], n - i);
      var l;
      l, next := TakeAt(results, next, k);
      if l.Malformed? {
        return Malformed(l.error), next;
      }
      out := out + [l.value];
    }
    TakingEnds(results[pos..], n, k, out, results[next..]);
    return Parsed(out), next;
  }

  method DecodeFrontAt(results: seq<AccessResult>) returns (r: Parse<Front>, pos: nat)
    ensures pos <= |results|
    ensures DecodeFront(results) == match r
                                    case Malformed(e) => Malformed(e)
                                    case Parsed(f) => Parsed((f, results[pos..]))
  {
    hide BitsOf, OptFldsOf, Take, TakeIf, TakeUInt, TakeUIntIf;
    assert results[0..] == results;
    var rptId, bits, seqNum, time, dataSet;
    rptId, pos := TakeAt(results, 0, AVisibleString);
    if rptId.Malformed? { return Malformed(rptId.error), pos; }
    bits, pos := TakeAt(results, pos, ABitString);
    if bits.Malformed? { return Malformed(bits.error), pos; }
    var opt := OptFldsOf(BitsOf(bits.value.bits, bits.value.unused));
    seqNum, pos := TakeUIntIfAt(opt.sequenceNumber, results, pos);
    if seqNum.Malformed? { return Malformed(seqNum.error), pos; }
    time, pos := TakeIfAt(opt.reportTimeStamp, results, pos, ATime);
    if time.Malformed? { return Malformed(time.error), pos; }
    dataSet, pos := TakeIfAt(opt.dataSetName, results, pos, AVisibleString);
    if dataSet.Malformed? { return Malformed(dataSet.error), pos; }
    return Parsed(Front(rptId.value.octets, opt, seqNum.value, time.value, OctetsOf(dataSet.value))), pos;
  }

  method DecodeBackAt(f: Front, results: seq<AccessResult>, at: nat) returns (r: Parse<ReportHead>, pos: nat)
    requires at <= |results|
    ensures at <= pos <= |results|
    ensures DecodeBack(f, results[at..]) == match r
                                            case Malformed(e) => Malformed(e)
                                            case Parsed(h) => Parsed((h, results[pos..]))
  {
    hide Take, TakeIf, TakeUInt, TakeUIntIf;
    var bufOvfl, entryId, confRev, subSeq, more;
    bufOvfl, pos := TakeIfAt(f.opt.bufferOverflow, results, at, ABool);
    if bufOvfl.Malformed? { return Malformed(bufOvfl.error), pos; }
    entryId, pos := TakeIfAt(f.opt.entryId, results, pos, AnOctetString);
    if entryId.Malformed? { return Malformed(entryId.error), pos; }
    confRev, pos := TakeUIntIfAt(f.opt.confRevision, results, pos);
    if confRev.Malformed? { return Malformed(confRev.error), pos; }
    subSeq, pos := TakeUIntIfAt(f.opt.segmentation, results, pos);
    if subSeq.Malformed? { return Malformed(subSeq.error), pos; }
    more, pos := TakeIfAt(f.opt.segmentation, results, pos, ABool);
    if more.Malformed? { return Malformed(more.error), pos; }
    return Parsed(ReportHead(f.rptId, f.opt, f.seqNum, f.timeOfEntry, f.dataSet, FlagOf(bufOvfl.value),
                             OctetsOf(entryId.value), confRev.value, subSeq.value, FlagOf(more.value))), pos;
  }

  method DecodeHeadAt(results: seq<AccessResult>) returns (r: Parse<ReportHead>, pos: nat)
    ensures pos <= |results|
    ensures DecodeHead(results) == match r
                                   case Malformed(e) => Malformed(e)
                                   case Parsed(h) => Parsed((h, results[pos..]))
  {
    hide DecodeFront, DecodeBack;
    var front;
    front, pos := DecodeFrontAt(results);
    if front.Malformed? {
      return Malformed(front.error), pos;
    }
    r, pos := DecodeBackAt(front.value, results, pos);
  }

  method TakeAllIfAt(present: bool, results: seq<AccessResult>, pos: nat, n: nat, k: Kind)
    returns (r: Parse<Option<seq<Leaf>>>, next: nat)
    requires pos <= |results|
    ensures pos <= next <= |results|
    ensures TakeAllIf(present, results[pos..], n, k) == match r
                                                        case Malformed(e) => Malformed(e)
                                                        case Parsed(ls) => Parsed((ls, results[next..]))
  {
    if !present {
      return Parsed(None), pos;
    }
    var ls;
    ls, next := TakeAllAt(results, pos, n, k);
    r := if ls.Malformed? then Malformed(ls.error) else Parsed(Some(ls.value));
  }

  // The positions of the bits that are set, by a loop.
  method Positions(bits: seq<bool>) returns (r: seq<nat>)
    ensures r == Set(bits)
  {
    r := [];
    for i := 0 to |bits|
      invariant r == Set(bits[..i])
    {
      assert bits[..i + 1][..i] == bits[..i];
      if bits[i] {
        r := r + [i];
      }
    }
    assert bits[..|bits|] == bits;
  }

  // `decode_report`, with its cursor.
  method DecodeReportAt(results: seq<AccessResult>) returns (r: Parse<Report>)
    ensures r == DecodeReport(results)
  {
    hide DecodeHead, Take, TakeAllIf, Set, BitsOf, ReasonOf;
    var head, pos := DecodeHeadAt(results);
    if head.Malformed? { return Malformed(head.error); }
    var bits;
    bits, pos := TakeAt(results, pos, ABitString);
    if bits.Malformed? { return Malformed(bits.error); }
    var inclusion := BitsOf(bits.value.bits, bits.value.unused);
    var indexes := Positions(inclusion);
    var n := |indexes|;
    var refs;
    refs, pos := TakeAllIfAt(head.value.opt.dataReference, results, pos, n, AVisibleString);
    if refs.Malformed? { return Malformed(refs.error); }
    if pos + n > |results| { return Malformed(EndsEarly); }
    assert results[pos..][..n] == results[pos..pos + n] && results[pos..][n..] == results[pos + n..];
    var values := results[pos..pos + n];
    var reasons;
    reasons, pos := TakeAllIfAt(head.value.opt.reasonForInclusion, results, pos + n, n, ABitString);
    if reasons.Malformed? { return Malformed(reasons.error); }
    if pos != |results| { return Malformed(Trailing); }
    return Parsed(Report(head.value, inclusion, EntriesOf(indexes, refs.value, values, reasons.value)));
  }
}
