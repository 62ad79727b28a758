/**
 The MMS `Data` CHOICE as `data.py` reads and writes it: trees, decoded and encoded
 by recursion on unbounded integers. Strings, floats and binary times are the octets on
 the wire; a UtcTime is its three wire fields.
 */
module Data {
  import opened Octets
  import opened Ber

  const TAG_ARRAY: nat := 0xA1
  const TAG_STRUCTURE: nat := 0xA2
  const TAG_BOOLEAN: nat := 0x83
  const TAG_BIT_STRING: nat := 0x84
  const TAG_INTEGER: nat := 0x85
  const TAG_UNSIGNED: nat := 0x86
  const TAG_FLOAT: nat := 0x87
  const TAG_OCTET_STRING: nat := 0x89
  const TAG_VISIBLE_STRING: nat := 0x8A
  const TAG_BINARY_TIME: nat := 0x8C
  const TAG_MMS_STRING: nat := 0x8F
  const TAG_UTC_TIME: nat := 0x91

  datatype Utc = Utc(seconds: nat, fraction: nat, quality: nat)

  datatype Leaf =
    | Bool(flag: bool)
    | Int(value: int)
    | UInt(magnitude: nat)
    | Float32(bits: Bytes)
    | Float64(bits: Bytes)
    | BitString(bits: Bytes, unused: nat)
    | OctetString(octets: Bytes)
    | VisibleString(octets: Bytes)
    | MmsString(octets: Bytes)
    | UtcTime(t: Utc)
    | BinaryTime(octets: Bytes)
    | Raw(tag: nat, octets: Bytes)

  datatype Value =
    | Single(leaf: Leaf)
    | Structure(members: seq<Value>)
    | Array(members: seq<Value>)

  predicate IsContainer(tag: nat) {
    tag == TAG_ARRAY || tag == TAG_STRUCTURE
  }

  // --- times -----------------------------------------------------------------------------

  // A fraction above 24 bits is written as 0xFFFFFF.
  function EncodeUtc(t: Utc): (s: Bytes)
    ensures |s| == 8
  {
    ToBE(t.seconds, 4) + ToBE(Min(t.fraction, 0xFF_FFFF), 3) + [t.quality % 256]
  }

  // The first 8 octets.
  function DecodeUtc(s: Bytes): Option<Utc> {
    if |s| < 8 then None else Some(Utc(FromBE(s[0..4]), FromBE(s[4..7]), s[7]))
  }

  predicate TypedUtc(t: Utc) {
    t.seconds < TWO_32 && t.quality < 256
  }

  lemma UtcRoundTrip(t: Utc)
    requires TypedUtc(t)
    ensures DecodeUtc(EncodeUtc(t)) == Some(t.(fraction := Min(t.fraction, 0xFF_FFFF)))
    ensures DecodeUtc(EncodeUtc(t)) == Some(t) <==> t.fraction < 0x100_0000
  {
    Powers();
    FromToBE(t.seconds, 4);
    FromToBE(Min(t.fraction, 0xFF_FFFF), 3);
    var s := EncodeUtc(t);
    assert s[0..4] == ToBE(t.seconds, 4);
    assert s[4..7] == ToBE(Min(t.fraction, 0xFF_FFFF), 3);
  }

  // --- decoding --------------------------------------------------------------------------

  // One value that has no members, from its tag and content octets.
  function DecodeLeaf(tag: nat, value: Bytes): Leaf {
    if tag == TAG_BOOLEAN then Bool(value != [] && value[0] != 0)
    else if tag == TAG_BIT_STRING then
      if value == [] then BitString([], 0) else BitString(value[1..], value[0])
    else if tag == TAG_INTEGER then Int(SignedBE(value))
    else if tag == TAG_UNSIGNED then UInt(FromBE(value))
    else if tag == TAG_FLOAT && |value| == 5 then Float32(value[1..])
    else if tag == TAG_FLOAT && |value| == 9 then Float64(value[1..])
    else if tag == TAG_OCTET_STRING then OctetString(value)
    else if tag == TAG_VISIBLE_STRING || tag == 0x1A || tag == 0x80 then VisibleString(value)
    else if tag == TAG_BINARY_TIME && |value| == 6 then BinaryTime(value)
    else if tag == TAG_MMS_STRING then MmsString(value)
    else if tag == TAG_UTC_TIME && |value| >= 8 then UtcTime(DecodeUtc(value).value)
    else Raw(tag, value)
  }

  function DecodeData(tag: nat, value: Bytes): Result<Value, BerError>
    decreases |value|, 1
  {
    if IsContainer(tag) then
      match DecodeSequence(value)
      case Err(e) => Err(e)
      case Ok(members) => Ok(if tag == TAG_ARRAY then Array(members) else Structure(members))
    else Ok(Single(DecodeLeaf(tag, value)))
  }

  // Consecutive `Data` TLVs covering exactly `s`.
  function DecodeSequence(s: Bytes): Result<seq<Value>, BerError>
    decreases |s|, 0
  {
    if s == [] then Ok([])
    else
      match TlvOf(s)
      case Err(e) => Err(e)
      case Ok(t) =>
        match DecodeData(t.tag, t.value)
        case Err(e) => Err(e)
        case Ok(v) =>
          match DecodeSequence(s[t.end..])
          case Err(e) => Err(e)
          case Ok(rest) => Ok([v] + rest)
  }

  // --- encoding --------------------------------------------------------------------------

  function LeafTag(l: Leaf): nat {
    match l
    case Bool(_) => TAG_BOOLEAN
    case Int(_) => TAG_INTEGER
    case UInt(_) => TAG_UNSIGNED
    case Float32(_) => TAG_FLOAT
    case Float64(_) => TAG_FLOAT
    case BitString(_, _) => TAG_BIT_STRING
    case OctetString(_) => TAG_OCTET_STRING
    case VisibleString(_) => TAG_VISIBLE_STRING
    case MmsString(_) => TAG_MMS_STRING
    case UtcTime(_) => TAG_UTC_TIME
    case BinaryTime(_) => TAG_BINARY_TIME
    case Raw(tag, _) => tag
  }

  // More than 7 unused bits are refused before anything is written (see Accepted).
  function LeafContent(l: Leaf): Bytes {
    match l
    case Bool(flag) => [if flag then 0xFF else 0x00]
    case Int(v) => EncodeInteger(v)
    case UInt(v) => EncodeInteger(v)
    case Float32(bits) => [0x08] + bits
    case Float64(bits) => [0x0B] + bits
    case BitString(bits, unused) => [unused % 256] + bits
    case OctetString(s) => s
    case VisibleString(s) => s
    case MmsString(s) => s
    case UtcTime(t) => EncodeUtc(t)
    case BinaryTime(s) => s
    case Raw(_, s) => s
  }

  predicate AcceptedLeaf(l: Leaf) {
    l.BitString? ==> l.unused <= 7
  }

  function Tag(v: Value): nat {
    match v
    case Single(l) => LeafTag(l)
    case Structure(_) => TAG_STRUCTURE
    case Array(_) => TAG_ARRAY
  }

  function Content(v: Value): Bytes
    decreases v, 0
  {
    match v
    case Single(l) => LeafContent(l)
    case Structure(members) => EncodeSequence(members)
    case Array(members) => EncodeSequence(members)
  }

  function EncodeData(v: Value): Bytes
    decreases v, 1
  {
    EncodeTlv(Tag(v), Content(v))
  }

  function EncodeSequence(vs: seq<Value>): Bytes
    decreases vs, 0
  {
    if vs == [] then [] else EncodeData(vs[0]) + EncodeSequence(vs[1..])
  }

  lemma {:induction false} EncodeConcat(a: seq<Value>, b: seq<Value>)
    ensures EncodeSequence(a + b) == EncodeSequence(a) + EncodeSequence(b)
  {
    if a == [] {
      assert a + b == b;
    } else {
      assert (a + b)[1..] == a[1..] + b;
      EncodeConcat(a[1..], b);
    }
  }

  lemma EncodeSnoc(vs: seq<Value>, v: Value)
    ensures EncodeSequence(vs + [v]) == EncodeSequence(vs) + EncodeData(v)
  {
    EncodeConcat(vs, [v]);
    assert EncodeSequence([v]) == EncodeData(v) + EncodeSequence([]);
  }

  // --- print then parse ------------------------------------------------------------------

  // What the types of the values allow: the widths of the octet fields.
  predicate TypedLeaf(l: Leaf) {
    && (l.Float32? ==> |l.bits| == 4)
    && (l.Float64? ==> |l.bits| == 8)
    && (l.BinaryTime? ==> |l.octets| == 6)
    && (l.BitString? ==> l.unused < 256)
    && (l.UtcTime? ==> TypedUtc(l.t))
  }

  // A tag and content octets the decoder keeps as they are.
  predicate Uninterpreted(tag: nat, value: Bytes) {
    && tag !in {TAG_BOOLEAN, TAG_BIT_STRING, TAG_INTEGER, TAG_UNSIGNED, TAG_OCTET_STRING,
                TAG_VISIBLE_STRING, 0x1A, 0x80, TAG_MMS_STRING}
    && !(tag == TAG_FLOAT && |value| in {5, 9})
    && !(tag == TAG_BINARY_TIME && |value| == 6)
    && !(tag == TAG_UTC_TIME && |value| >= 8)
  }

  // A leaf is read back as it was written exactly when its time fraction fits in 24 bits
  // and its raw tag is one the decoder does not interpret.
  predicate FaithfulLeaf(l: Leaf) {
    && (l.UtcTime? ==> l.t.fraction < 0x100_0000)
    && (l.Raw? ==> Uninterpreted(l.tag, l.octets))
  }

  lemma LeafRoundTrip(l: Leaf)
    requires TypedLeaf(l)
    ensures DecodeLeaf(LeafTag(l), LeafContent(l)) == l <==> FaithfulLeaf(l)
  {
    hide EncodeInteger, SignedBE, FromBE, EncodeUtc, DecodeUtc;
    match l
    case Int(v) => IntegerRoundTrip(v);
    case UInt(v) => UnsignedRoundTrip(v);
    case UtcTime(t) => UtcRoundTrip(t);
    case _ =>
  }

  // Every leaf of the values, at any depth.
  ghost predicate AllLeaves(vs: seq<Value>, p: Leaf -> bool)
    decreases vs, 0
  {
    vs == [] || (LeavesOf(vs[0], p) && AllLeaves(vs[1..], p))
  }

  ghost predicate LeavesOf(v: Value, p: Leaf -> bool)
    decreases v, 1
  {
    match v
    case Single(l) => p(l)
    case Structure(members) => AllLeaves(members, p)
    case Array(members) => AllLeaves(members, p)
  }

  ghost predicate Readable(l: Leaf) {
    TypedLeaf(l) && FaithfulLeaf(l) && (l.Raw? ==> WellFormedTag(l.tag) && !IsContainer(l.tag))
  }

  lemma TagsAreWellFormed(v: Value)
    requires v.Single? ==> Readable(v.leaf)
    ensures WellFormedTag(Tag(v))
  {
    hide WellFormedTag;
    if !(v.Single? && v.leaf.Raw?) {
      ShortTag(Tag(v));
    }
  }

  // What is encoded is decoded, whatever the nesting. The bound is that of a 64-bit memory.
  lemma {:induction false} SequenceRoundTrip(vs: seq<Value>)
    requires AllLeaves(vs, Readable)
    requires |EncodeSequence(vs)| < TWO_64
    ensures DecodeSequence(EncodeSequence(vs)) == Ok(vs)
    decreases vs, 0
  {
    hide TlvOf, EncodeData, DecodeData, LeavesOf;
    if vs != [] {
      var head, rest := EncodeData(vs[0]), EncodeSequence(vs[1..]);
      DataRoundTrip(vs[0], rest);
      SequenceRoundTrip(vs[1..]);
      assert (head + rest)[|head|..] == rest;
      assert vs == [vs[0]] + vs[1..];
    }
  }

  lemma {:induction false} DataRoundTrip(v: Value, rest: Bytes)
    requires LeavesOf(v, Readable)
    requires |EncodeData(v)| < TWO_64
    ensures TlvOf(EncodeData(v) + rest) == Ok(Tlv(Tag(v), Content(v), |EncodeData(v)|))
    ensures DecodeData(Tag(v), Content(v)) == Ok(v)
    decreases v, 1
  {
    hide TlvOf, EncodeTlv, LeafContent, DecodeLeaf;
    TagsAreWellFormed(v);
    ContentFits(Tag(v), Content(v));
    TlvRoundTrip(Tag(v), Content(v), rest);
    if v.Single? {
      LeafRoundTrip(v.leaf);
    } else {
      SequenceRoundTrip(v.members);
    }
  }
}
