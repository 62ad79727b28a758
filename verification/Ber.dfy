/**
 X.690 BER: tags, definite lengths, TLVs and INTEGERs.

 The functions are the Python module `ber.py`, on unbounded integers, reading at the
 head of the octets given. The methods are the native module `ber.rs`, with its 32-bit
 saturating tags, its saturating 64-bit lengths and its writer; each is proved against
 the functions.
 */
module Ber {
  import opened Octets

  datatype BerError =
    | MissingTag
    | TruncatedTag
    | MissingLength
    | IndefiniteLength
    | TruncatedLength
    | Truncated
    | EmptyInteger
    | IntegerTooLarge

  // One decoded TLV: tag, content octets and the offset right after it.
  datatype Tlv = Tlv(tag: nat, value: Bytes, end: nat)

  // --- reading, on unbounded integers --------------------------------------------------

  // The tag at the head of `s` and the octets it takes.
  function TagOf(s: Bytes): (r: Result<(nat, nat), BerError>)
    ensures r.Ok? ==> 1 <= r.value.1 <= |s| && r.value.0 == FromBE(s[..r.value.1])
  {
    if s == [] then Err(MissingTag)
    else
      assert s[..1] == [s[0]] && [s[0]][..0] == [];
      if s[0] % 32 != 31 then Ok((s[0], 1)) else TagRest(s, 1, s[0])
  }

  // The rest of a high-number tag: octets up to the first below 0x80.
  function TagRest(s: Bytes, at: nat, tag: nat): (r: Result<(nat, nat), BerError>)
    requires 1 <= at <= |s| && tag == FromBE(s[..at])
    ensures r.Ok? ==> at < r.value.1 <= |s| && r.value.0 == FromBE(s[..r.value.1])
    decreases |s| - at
  {
    if at == |s| then Err(TruncatedTag)
    else
      assert s[..at + 1][..at] == s[..at];
      var t := tag * 256 + s[at];
      if s[at] < 128 then Ok((t, at + 1)) else TagRest(s, at + 1, t)
  }

  // The length at the head of `s` and the octets it takes.
  function LengthOf(s: Bytes): (r: Result<(nat, nat), BerError>)
    ensures r.Ok? ==> 1 <= r.value.1 <= |s|
  {
    if s == [] then Err(MissingLength)
    else if s[0] < 128 then Ok((s[0], 1))
    else
      var n := s[0] - 128;
      if n == 0 then Err(IndefiniteLength)
      else if 1 + n > |s| then Err(TruncatedLength)
      else Ok((FromBE(s[1..1 + n]), 1 + n))
  }

  // Tag and content length at the head of `s`, and the octets both take.
  function HeaderOf(s: Bytes): (r: Result<(nat, nat, nat), BerError>)
    ensures r.Ok? ==> 2 <= r.value.2 <= |s|
  {
    match TagOf(s)
    case Err(e) => Err(e)
    case Ok((tag, n)) =>
      match LengthOf(s[n..])
      case Err(e) => Err(e)
      case Ok((length, m)) => Ok((tag, length, n + m))
  }

  // The TLV at the head of `s`; its content must lie within `s`.
  function TlvOf(s: Bytes): (r: Result<Tlv, BerError>)
    ensures r.Ok? ==> 2 <= r.value.end <= |s| && |r.value.value| <= r.value.end - 2
    ensures r.Ok? ==> r.value.value == s[r.value.end - |r.value.value|..r.value.end]
  {
    match HeaderOf(s)
    case Err(e) => Err(e)
    case Ok((tag, length, start)) =>
      if length > |s| - start then Err(Truncated) else Ok(Tlv(tag, s[start..start + length], start + length))
  }

  // `decode_tlv` as Python writes it, with its fast path.
  function DecodeTlv(s: Bytes): Result<Tlv, BerError> {
    if 2 <= |s| && s[0] % 32 != 31 && s[1] < 128 then
      if 2 + s[1] > |s| then Err(Truncated) else Ok(Tlv(s[0], s[2..2 + s[1]], 2 + s[1]))
    else TlvOf(s)
  }

  lemma FastPathIsTheSlowPath(s: Bytes)
    ensures DecodeTlv(s) == TlvOf(s)
  {
    if 2 <= |s| && s[0] % 32 != 31 && s[1] < 128 {
      assert s[1..][0] == s[1];
    }
  }

  // The consecutive TLVs covering exactly `s`.
  function Tlvs(s: Bytes): (r: Result<seq<Tlv>, BerError>)
    ensures r.Ok? ==> forall k :: 0 <= k < |r.value| ==> |r.value[k].value| < |s|
    decreases |s|
  {
    if s == [] then Ok([])
    else
      match TlvOf(s)
      case Err(e) => Err(e)
      case Ok(t) =>
        match Tlvs(s[t.end..])
        case Err(e) => Err(e)
        case Ok(rest) => Ok([t] + rest)
  }

  // A TLV that lies within `s` is read the same whatever follows `s`.
  lemma TlvOfPrefix(s: Bytes, rest: Bytes)
    requires TlvOf(s).Ok?
    ensures TlvOf(s + rest) == TlvOf(s)
  {
    hide TagOf, LengthOf;
    var n := TagOf(s).value.1;
    TagOfPrefix(s, rest);
    assert (s + rest)[n..] == s[n..] + rest;
    LengthOfPrefix(s[n..], rest);
    var start := HeaderOf(s).value.2;
    var t := TlvOf(s).value;
    assert (s + rest)[start..t.end] == s[start..t.end];
  }

  lemma TagOfPrefix(s: Bytes, rest: Bytes)
    requires TagOf(s).Ok?
    ensures TagOf(s + rest) == TagOf(s)
  {
    if s[0] % 32 == 31 {
      TagRestPrefix(s, rest, 1, s[0]);
    }
  }

  lemma LengthOfPrefix(s: Bytes, rest: Bytes)
    requires LengthOf(s).Ok?
    ensures LengthOf(s + rest) == LengthOf(s)
  {
    if s[0] >= 128 {
      var m := LengthOf(s).value.1;
      assert (s + rest)[1..m] == s[1..m];
    }
  }

  lemma {:induction false} TagRestPrefix(s: Bytes, rest: Bytes, at: nat, tag: nat)
    requires 1 <= at <= |s| && tag == FromBE(s[..at])
    requires TagRest(s, at, tag).Ok?
    ensures (s + rest)[..at] == s[..at]
    ensures TagRest(s + rest, at, tag) == TagRest(s, at, tag)
    decreases |s| - at
  {
    if s[at] >= 128 {
      assert s[..at + 1][..at] == s[..at];
      TagRestPrefix(s, rest, at + 1, tag * 256 + s[at]);
    }
  }

  // --- INTEGERs ------------------------------------------------------------------------

  // The minimal number of octets of a two's-complement INTEGER.
  function IntegerLength(value: int): nat {
    BitLength(if value < 0 then -value - 1 else value) / 8 + 1
  }

  function EncodeInteger(value: int): (s: Bytes)
    ensures |s| == IntegerLength(value)
  {
    var n := IntegerLength(value);
    SignedRange(value);
    if value < 0 then ToBE(Pow256(n) + value, n) else ToBE(value, n)
  }

  lemma SignedRange(value: int)
    ensures 0 - Pow256(IntegerLength(value)) <= 2 * value < Pow256(IntegerLength(value))
  {
    HalfRange(if value < 0 then -value - 1 else value);
  }

  lemma {:induction false} HalfRange(m: nat)
    ensures 2 * m < Pow256(BitLength(m) / 8 + 1)
    ensures BitLength(m) >= 8 ==> Pow256(BitLength(m) / 8) <= 2 * m
  {
    if m < 256 {
      SmallBitLength(m);
      assert Pow256(2) == 256 * Pow256(1);
    } else {
      BitLengthByOctet(m);
      HalfRange(m / 256);
      SmallBitLength(m / 256 % 256);
      if BitLength(m / 256) < 8 {
        assert BitLength(m) / 8 == 1;
      }
    }
  }

  // print then parse: the octets of an INTEGER read back as its value.
  lemma IntegerRoundTrip(value: int)
    ensures SignedBE(EncodeInteger(value)) == value
  {
    var n := IntegerLength(value);
    var v := if value < 0 then Pow256(n) + value else value;
    SignedRange(value);
    FromToBE(v, n);
    var s := ToBE(v, n);
    FirstOctet(s);
  }

  lemma HeadValue(s: Bytes)
    requires s != []
    ensures FromBE(s) == s[0] * Pow256(|s| - 1) + FromBE(s[1..])
  {
    var head := [s[0]];
    assert s == head + s[1..];
    FromBEConcat(head, s[1..]);
    assert head[..0] == [];
    assert FromBE(head) == s[0];
  }

  lemma TimesAtMost(a: nat, b: nat, p: nat)
    requires a <= b
    ensures a * p <= b * p
  {
  }

  lemma UnsignedRoundTrip(value: nat)
    ensures FromBE(EncodeInteger(value)) == value
  {
    SignedRange(value);
    FromToBE(value, IntegerLength(value));
  }

  // The first octet tells which half of the range the value lies in.
  lemma FirstOctet(s: Bytes)
    requires s != []
    ensures s[0] >= 128 <==> 2 * FromBE(s) >= Pow256(|s|)
  {
    HeadValue(s);
    FromBEBound(s[1..]);
    if s[0] >= 128 {
      TimesAtMost(128, s[0], Pow256(|s| - 1));
    } else {
      TimesAtMost(s[0], 127, Pow256(|s| - 1));
    }
  }

  // No shorter two's-complement form exists (X.690 section 8.3.2).
  lemma IntegerIsMinimal(s: Bytes)
    requires s != []
    ensures IntegerLength(SignedBE(s)) <= |s|
  {
    var value := SignedBE(s);
    FromBEBound(s);
    FirstOctet(s);
    var m := if value < 0 then -value - 1 else value;
    HalfRange(m);
    if IntegerLength(value) > |s| {
      PowersGrow(|s|, BitLength(m) / 8);
    }
  }

  // --- writing -------------------------------------------------------------------------

  function EncodeTag(tag: nat): (s: Bytes)
    ensures |s| >= 1
  {
    ToBE(tag, if OctetCount(tag) == 0 then 1 else OctetCount(tag))
  }

  // Short form below 128, minimal long form otherwise. The first octet announces up to 126
  // octets of length, which no content held in memory reaches.
  function EncodeLength(length: nat): (s: Bytes)
    ensures |s| >= 1
  {
    if length < 128 then [length]
    else [Announce(OctetCount(length))] + ToBE(length, OctetCount(length))
  }

  function Announce(octets: nat): Octet {
    128 + Min(octets, 127)
  }

  function EncodeTlv(tag: nat, content: Bytes): (s: Bytes)
    ensures |s| >= 2 + |content|
  {
    EncodeTag(tag) + EncodeLength(|content|) + content
  }

  lemma ContentFits(tag: nat, content: Bytes)
    ensures |content| <= |EncodeTlv(tag, content)|
  {
  }

  // The octets of one identifier (X.690 section 8.1.2).
  predicate IsIdentifier(octets: Bytes) {
    && octets != []
    && (if octets[0] % 32 != 31 then |octets| == 1
        else |octets| >= 2 && octets[|octets| - 1] < 128
             && forall k :: 1 <= k < |octets| - 1 ==> octets[k] >= 128)
  }

  // Reading a tag takes exactly one identifier, and every identifier is read whole.
  lemma TagOfIdentifier(octets: Bytes, rest: Bytes)
    requires IsIdentifier(octets)
    ensures TagOf(octets + rest) == Ok((FromBE(octets), |octets|))
  {
    var s := octets + rest;
    assert s[..1] == [s[0]] && [s[0]][..0] == [];
    if octets[0] % 32 != 31 {
      assert octets == [s[0]];
    } else {
      TagRestIdentifier(octets, rest, 1);
    }
  }

  lemma {:induction false} TagRestIdentifier(octets: Bytes, rest: Bytes, at: nat)
    requires IsIdentifier(octets) && 1 <= at < |octets|
    ensures TagRest(octets + rest, at, FromBE((octets + rest)[..at])) == Ok((FromBE(octets), |octets|))
    decreases |octets| - at
  {
    var s := octets + rest;
    assert s[..at + 1][..at] == s[..at];
    if at + 1 == |octets| {
      assert s[..at + 1] == octets;
    } else {
      TagRestIdentifier(octets, rest, at + 1);
    }
  }

  lemma {:induction false} TagReadIsIdentifier(s: Bytes)
    requires TagOf(s).Ok?
    ensures IsIdentifier(s[..TagOf(s).value.1])
  {
    if s[0] % 32 == 31 {
      TagRestReadIsIdentifier(s, 1, s[0]);
    }
  }

  lemma {:induction false} TagRestReadIsIdentifier(s: Bytes, at: nat, tag: nat)
    requires 1 <= at <= |s| && tag == FromBE(s[..at])
    requires s[0] % 32 == 31 && forall k :: 1 <= k < at ==> s[k] >= 128
    requires TagRest(s, at, tag).Ok?
    ensures IsIdentifier(s[..TagRest(s, at, tag).value.1])
    decreases |s| - at
  {
    if s[at] >= 128 {
      assert s[..at + 1][..at] == s[..at];
      TagRestReadIsIdentifier(s, at + 1, tag * 256 + s[at]);
    }
  }

  lemma LengthRoundTrip(length: nat, rest: Bytes)
    requires length < TWO_64
    ensures LengthOf(EncodeLength(length) + rest) == Ok((length, |EncodeLength(length)|))
  {
    if length >= 128 {
      var n := OctetCount(length);
      Powers();
      OctetCountAtMost(length, 8);
      OctetCountIsLeast(length);
      FromToBE(length, n);
      var s := EncodeLength(length) + rest;
      assert s[1..1 + n] == ToBE(length, n);
    }
  }

  // A well-formed tag: its octets are one identifier.
  predicate WellFormedTag(tag: nat) {
    IsIdentifier(EncodeTag(tag))
  }

  lemma EncodedTagValue(tag: nat)
    ensures FromBE(EncodeTag(tag)) == tag
  {
    OctetCountIsLeast(tag);
    FromToBE(tag, |EncodeTag(tag)|);
  }

  // Tags of one octet below 31 in their low bits are well formed as they are.
  lemma ShortTag(tag: nat)
    requires tag < 256
    ensures EncodeTag(tag) == [tag]
    ensures tag % 32 != 31 ==> WellFormedTag(tag)
  {
    SmallBitLength(tag);
    assert ToBE(tag, 1) == ToBE(tag / 256, 0) + [tag % 256] == [tag];
  }

  // A written TLV is read back whole, whatever follows it.
  lemma TlvRoundTrip(tag: nat, content: Bytes, rest: Bytes)
    requires WellFormedTag(tag) && |content| < TWO_64
    ensures TlvOf(EncodeTlv(tag, content) + rest) == Ok(Tlv(tag, content, |EncodeTlv(tag, content)|))
  {
    var t, l := EncodeTag(tag), EncodeLength(|content|);
    var s := EncodeTlv(tag, content) + rest;
    assert s == t + (l + (content + rest));
    TagOfIdentifier(t, l + (content + rest));
    EncodedTagValue(tag);
    assert s[|t|..] == l + (content + rest);
    LengthRoundTrip(|content|, content + rest);
    assert s[|t| + |l|..|t| + |l| + |content|] == content;
  }

  // --- the native decoder --------------------------------------------------------------

  // What `data.get(offset..)` leaves to read.
  function Suffix(data: Bytes, offset: nat): Bytes {
    if offset <= |data| then data[offset..] else []
  }

  function NarrowTag(tag: nat): nat {
    Min(tag, U32_MAX)
  }

  method NativeDecodeTag(data: Bytes, offset: nat) returns (r: Result<(nat, nat), BerError>)
    ensures match TagOf(Suffix(data, offset))
            case Err(e) => r == Err(e)
            case Ok((tag, n)) => r == Ok((NarrowTag(tag), offset + n))
  {
    if offset >= |data| {
      return Err(MissingTag);
    }
    var first := data[offset];
    var tag: nat := first;
    var at := offset + 1;
    ghost var s := data[offset..];
    ghost var full: nat := first;
    assert s[..1] == [s[0]] && [s[0]][..0] == [];
    if first % 32 == 31 {
      while true
        invariant offset < at <= |data| && full == FromBE(s[..at - offset])
        invariant tag == NarrowTag(full)
        invariant TagOf(s) == TagRest(s, at - offset, full)
        decreases |data| - at
      {
        if at == |data| {
          return Err(TruncatedTag);
        }
        var b := data[at];
        assert s[..at - offset + 1][..at - offset] == s[..at - offset];
        at := at + 1;
        tag := if tag > 0x00FF_FFFF then U32_MAX else tag * 256 + b;
        full := full * 256 + b;
        if b < 128 {
          break;
        }
      }
    }
    return Ok((tag, at));
  }

  method NativeDecodeLength(data: Bytes, offset: nat) returns (r: Result<(nat, nat), BerError>)
    ensures match LengthOf(Suffix(data, offset))
            case Err(e) => r == Err(e)
            case Ok((length, n)) => r == Ok((Min(length, U64_MAX), offset + n))
  {
    if offset >= |data| {
      return Err(MissingLength);
    }
    var first := data[offset];
    if first < 128 {
      return Ok((first, offset + 1));
    }
    var n := first - 128;
    if n == 0 {
      return Err(IndefiniteLength);
    }
    if offset + 1 + n > |data| {
      return Err(TruncatedLength);
    }
    var octets := data[offset + 1..offset + 1 + n];
    ghost var s := Suffix(data, offset);
    assert octets == s[1..1 + n];
    var length: nat := 0;
    for i := 0 to n
      invariant length == Min(FromBE(octets[..i]), U64_MAX)
    {
      assert octets[..i + 1][..i] == octets[..i];
      length := Min(Min(length * 256, U64_MAX) + octets[i], U64_MAX);
    }
    assert octets[..n] == octets;
    return Ok((length, offset + 1 + n));
  }

  // What reading the TLV at `offset` gives: the reference reading, its tag narrowed.
  ghost predicate ReadAt(data: Bytes, offset: nat, r: Result<Tlv, BerError>) {
    match TlvOf(Suffix(data, offset))
    case Err(e) => r == Err(e)
    case Ok(t) => r == Ok(Tlv(NarrowTag(t.tag), t.value, offset + t.end))
  }

  // A slice is at most isize::MAX octets long: a saturated length never fits in one.
  method NativeDecodeTlv(data: Bytes, offset: nat) returns (r: Result<Tlv, BerError>)
    requires |data| < TWO_63
    ensures ReadAt(data, offset, r)
  {
    hide HeaderOf;
    var header := NativeDecodeHeader(data, offset);
    if header.Err? {
      return Err(header.error);
    }
    var (tag, length, start) := header.value;
    var left := |data| - start;
    if length > left {
      return Err(Truncated);
    }
    SliceOfSuffix(data, offset, start, start + length);
    return Ok(Tlv(tag, data[start..start + length], start + length));
  }

  method NativeDecodeHeader(data: Bytes, offset: nat) returns (r: Result<(nat, nat, nat), BerError>)
    ensures match HeaderOf(Suffix(data, offset))
            case Err(e) => r == Err(e)
            case Ok((tag, length, n)) => r == Ok((NarrowTag(tag), Min(length, U64_MAX), offset + n))
  {
    ghost var s := Suffix(data, offset);
    if offset + 2 <= |data| && data[offset] % 32 != 31 && data[offset + 1] < 128 {
      assert s[1..][0] == s[1];
      return Ok((data[offset], data[offset + 1], offset + 2));
    }
    var r0 := NativeDecodeTag(data, offset);
    if r0.Err? {
      return Err(r0.error);
    }
    SuffixOfSuffix(data, offset, r0.value.1);
    var r1 := NativeDecodeLength(data, r0.value.1);
    if r1.Err? {
      return Err(r1.error);
    }
    return Ok((r0.value.0, r1.value.0, r1.value.1));
  }

  lemma SuffixOfSuffix(data: Bytes, a: nat, b: nat)
    requires a <= b <= |data|
    ensures Suffix(data, b) == Suffix(data, a)[b - a..]
  {
  }

  lemma SliceOfSuffix(data: Bytes, a: nat, b: nat, c: nat)
    requires a <= b <= c <= |data|
    ensures data[b..c] == Suffix(data, a)[b - a..c - a]
  {
  }

  // Skips leading zero octets, then folds at most eight octets.
  method NativeDecodeUnsigned(content: Bytes) returns (r: Result<nat, BerError>)
    ensures r == if content == [] then Err(EmptyInteger)
                 else if FromBE(content) < TWO_64 then Ok(FromBE(content)) else Err(IntegerTooLarge)
  {
    if content == [] {
      return Err(EmptyInteger);
    }
    var first := 0;
    while first < |content| && content[first] == 0
      invariant first <= |content|
      invariant FromBE(content) == FromBE(content[first..])
    {
      LeadingZero(content[first..]);
      assert content[first..][1..] == content[first + 1..];
      first := first + 1;
    }
    var significant := content[first..];
    Powers();
    if |significant| > 8 {
      LeadingOctet(significant);
      PowersGrow(8, |significant| - 1);
      return Err(IntegerTooLarge);
    }
    FromBEBound(significant);
    PowersGrow(|significant|, 8);
    var v: nat := 0;
    for i := 0 to |significant|
      invariant v == FromBE(significant[..i])
    {
      assert significant[..i + 1][..i] == significant[..i];
      v := v * 256 + significant[i];
    }
    assert significant[..|significant|] == significant;
    return Ok(v);
  }

  lemma LeadingZero(s: Bytes)
    requires s != [] && s[0] == 0
    ensures FromBE(s) == FromBE(s[1..])
  {
    HeadValue(s);
  }

  lemma LeadingOctet(s: Bytes)
    requires s != [] && s[0] != 0
    ensures FromBE(s) >= Pow256(|s| - 1)
  {
    HeadValue(s);
    TimesAtMost(1, s[0], Pow256(|s| - 1));
  }

  // --- the native writer ---------------------------------------------------------------

  // Octets of a tag, from the leading zeros of its 32 bits.
  function TagLen(tag: nat): nat
    requires tag < TWO_32
  {
    var octets := 4 - (32 - BitLength(tag)) / 8;
    if octets < 1 then 1 else octets
  }

  function LengthLen(length: nat): nat {
    if length < 128 then 1 else 1 + OctetCount(length)
  }

  function TlvLen(tag: nat, content: nat): nat
    requires tag < TWO_32
  {
    TagLen(tag) + LengthLen(content) + content
  }

  // The measured length is the number of octets written.
  lemma TlvLenIsExact(tag: nat, content: Bytes)
    requires tag < TWO_32
    ensures TagLen(tag) == |EncodeTag(tag)|
    ensures LengthLen(|content|) == |EncodeLength(|content|)|
    ensures TlvLen(tag, |content|) == |EncodeTlv(tag, content)|
  {
    Powers();
    OctetCountAtMost(tag, 4);
  }

  // Between two states of a buffer and its write position: `octets` follow what was written
  // before, and nothing beyond them changed.
  ghost predicate Extends(before: Bytes, p: nat, after: Bytes, q: nat, octets: Bytes) {
    && p <= q <= |before| == |after|
    && q == p + |octets|
    && after[..q] == before[..p] + octets
    && after[q..] == before[q..]
  }

  lemma ExtendsTwice(b0: Bytes, p0: nat, b1: Bytes, p1: nat, b2: Bytes, p2: nat, x: Bytes, y: Bytes)
    requires Extends(b0, p0, b1, p1, x) && Extends(b1, p1, b2, p2, y)
    ensures Extends(b0, p0, b2, p2, x + y)
  {
    assert b2[..p2] == b0[..p0] + (x + y);
    assert b1[p2..] == b1[p1..][p2 - p1..] == b0[p1..][p2 - p1..] == b0[p2..];
  }

  // `Integer::signed` and `Integer::unsigned`: the last octets of a 9-octet big-endian form.
  function NativeSignedOctets(value: int): Bytes
    requires -TWO_63 <= value < TWO_63
  {
    Powers();
    SignedRange(value);
    IntegerFitsInEight(value);
    ([0] + ToBE(if value < 0 then TWO_64 + value else value, 8))[9 - IntegerLength(value)..]
  }

  function NativeUnsignedOctets(value: nat): Bytes
    requires value < TWO_64
  {
    IntegerFitsInNine(value);
    ([0] + ToBE(value, 8))[9 - IntegerLength(value)..]
  }

  lemma IntegerFitsInEight(value: int)
    requires -TWO_63 <= value < TWO_63
    ensures IntegerLength(value) <= 8
  {
    var m := if value < 0 then -value - 1 else value;
    HalfRange(m);
    Powers();
    if IntegerLength(value) > 8 {
      PowersGrow(8, BitLength(m) / 8);
    }
  }

  lemma IntegerFitsInNine(value: nat)
    requires value < TWO_64
    ensures IntegerLength(value) <= 9
  {
    HalfRange(value);
    Powers();
    if IntegerLength(value) > 9 {
      assert Pow256(9) == 256 * Pow256(8);
      PowersGrow(9, BitLength(value) / 8);
    }
  }

  // The 64-bit forms write the minimal octets of the unbounded encoder.
  lemma NativeSignedIsMinimal(value: int)
    requires -TWO_63 <= value < TWO_63
    ensures NativeSignedOctets(value) == EncodeInteger(value)
  {
    var n := IntegerLength(value);
    Powers();
    IntegerFitsInEight(value);
    SignedRange(value);
    var wide := if value < 0 then TWO_64 + value else value;
    TailOctets([0], wide, 8, n);
    if value < 0 {
      NegativeLowOctets(value, n);
    }
  }

  lemma NegativeLowOctets(value: int, n: nat)
    requires n <= 8 && 0 - Pow256(n) <= value < 0
    ensures TWO_64 + value >= 0 && ToBE(TWO_64 + value, n) == ToBE(Pow256(n) + value, n)
  {
    Powers();
    PowerOfSum(8 - n, n);
    var q, p := Pow256(8 - n), Pow256(n);
    assert (q - 1) * p == q * p - p;
    LowOctetsModulo(p + value, q - 1, n);
    PowersGrow(n, 8);
  }

  lemma NativeUnsignedIsMinimal(value: nat)
    requires value < TWO_64
    ensures NativeUnsignedOctets(value) == EncodeInteger(value)
  {
    Powers();
    IntegerFitsInNine(value);
    if IntegerLength(value) == 9 {
      Leading(value, 8);
    } else {
      TailOctets([0], value, 8, IntegerLength(value));
    }
  }

  lemma TailOctets(head: Bytes, v: nat, m: nat, n: nat)
    requires n <= m
    ensures (head + ToBE(v, m))[|head| + m - n..] == ToBE(v, n)
  {
    LowOctets(v, m, n);
    assert (head + ToBE(v, m))[|head| + m - n..] == ToBE(v, m)[m - n..];
  }

  lemma {:induction false} LowOctets(v: nat, m: nat, n: nat)
    requires n <= m
    ensures ToBE(v, m)[m - n..] == ToBE(v, n)
  {
    if n > 0 {
      LowOctets(v / 256, m - 1, n - 1);
    }
  }

  lemma {:induction false} Leading(v: nat, n: nat)
    requires v < Pow256(n)
    ensures ToBE(v, n + 1) == [0] + ToBE(v, n)
  {
    if n > 0 {
      Leading(v / 256, n - 1);
    }
  }

  lemma {:induction false} PowerOfSum(a: nat, b: nat)
    ensures Pow256(a + b) == Pow256(a) * Pow256(b)
  {
    if b > 0 {
      PowerOfSum(a, b - 1);
      assert Pow256(a) * Pow256(b) == 256 * (Pow256(a) * Pow256(b - 1));
    }
  }

  lemma {:induction false} LowOctetsModulo(v: nat, k: nat, n: nat)
    ensures ToBE(v + k * Pow256(n), n) == ToBE(v, n)
  {
    if n > 0 {
      var more := k * Pow256(n - 1);
      assert k * Pow256(n) == 256 * more;
      LowOctetsModulo(v / 256, k, n - 1);
      assert (v + 256 * more) / 256 == v / 256 + more;
      assert (v + 256 * more) % 256 == v % 256;
    }
  }

  // Writes TLVs forward into a caller's buffer.
  class Writer {
    const buf: array<Octet>
    var pos: nat

    ghost predicate Valid()
      reads this
    {
      pos <= buf.Length
    }

    constructor (buf: array<Octet>)
      ensures Valid() && pos == 0 && this.buf == buf
    {
      this.buf := buf;
      pos := 0;
    }

    method Put(octets: Bytes) returns (ok: bool)
      requires Valid()
      modifies this, buf
      ensures Valid()
      ensures ok == (old(pos) + |octets| <= buf.Length)
      ensures ok ==> Extends(old(buf[..]), old(pos), buf[..], pos, octets)
      ensures !ok ==> pos == old(pos) && buf[..] == old(buf[..])
    {
      var end := pos + |octets|;
      if end > buf.Length {
        return false;
      }
      for i := 0 to |octets|
        invariant pos == old(pos) && end <= buf.Length
        invariant buf[..pos] == old(buf[..pos])
        invariant forall k :: 0 <= k < i ==> buf[pos + k] == octets[k]
        invariant forall k :: pos + i <= k < buf.Length ==> buf[k] == old(buf[k])
      {
        buf[pos + i] := octets[i];
      }
      assert buf[..end] == buf[..pos] + octets;
      pos := end;
      return true;
    }

    method PutHeader(tag: nat, contentLen: nat) returns (ok: bool)
      requires Valid() && tag < TWO_32
      modifies this, buf
      ensures Valid()
      ensures ok == (old(pos) + |EncodeTag(tag) + EncodeLength(contentLen)| <= buf.Length)
      ensures ok ==> Extends(old(buf[..]), old(pos), buf[..], pos, EncodeTag(tag) + EncodeLength(contentLen))
    {
      Powers();
      OctetCountAtMost(tag, 4);
      ok := Put(ToBE(tag, TagLen(tag)));
      if !ok {
        return;
      }
      ghost var b1, p1 := buf[..], pos;
      ok := PutLength(contentLen);
      if ok {
        ExtendsTwice(old(buf[..]), old(pos), b1, p1, buf[..], pos, EncodeTag(tag), EncodeLength(contentLen));
      }
    }

    method PutLength(length: nat) returns (ok: bool)
      requires Valid()
      modifies this, buf
      ensures Valid()
      ensures ok == (old(pos) + |EncodeLength(length)| <= buf.Length)
      ensures ok ==> Extends(old(buf[..]), old(pos), buf[..], pos, EncodeLength(length))
    {
      if length < 128 {
        ok := Put([length]);
        return;
      }
      var n := LengthLen(length) - 1;
      ok := Put([Announce(n)]);
      if !ok {
        return;
      }
      ghost var b1, p1 := buf[..], pos;
      ok := Put(ToBE(length, n));
      if ok {
        ExtendsTwice(old(buf[..]), old(pos), b1, p1, buf[..], pos, [Announce(n)], ToBE(length, n));
      }
    }

    method PutTlv(tag: nat, content: Bytes) returns (ok: bool)
      requires Valid() && tag < TWO_32
      modifies this, buf
      ensures Valid()
      ensures ok == (old(pos) + |EncodeTlv(tag, content)| <= buf.Length)
      ensures ok ==> Extends(old(buf[..]), old(pos), buf[..], pos, EncodeTlv(tag, content))
    {
      ok := PutHeader(tag, |content|);
      if !ok {
        return;
      }
      ghost var b1, p1 := buf[..], pos;
      ok := Put(content);
      if ok {
        ExtendsTwice(old(buf[..]), old(pos), b1, p1, buf[..], pos,
                     EncodeTag(tag) + EncodeLength(|content|), content);
      }
    }
  }
}
