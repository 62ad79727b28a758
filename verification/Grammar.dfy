/**
 What octets mean, said of the octets themselves and not of the functions that read them:
 numbers by their digits, BER elements by their parts (X.690, sections 8.1.2 and 8.1.3), each
 type of `Data` by its content octets, and trees by the elements they are spelled with.
 */
module Grammar {
  import opened Modulo
  import opened Octets
  import opened Ber
  import opened Data
  import FlatData
  import FlatReader

  // --- numbers ---------------------------------------------------------------------------

  function Power(base: nat, n: nat): (p: nat)
    requires base > 0
    ensures p > 0
  {
    if n == 0 then 1 else base * Power(base, n - 1)
  }

  lemma {:induction false} PowerOf256(n: nat)
    ensures Power(256, n) == Pow256(n)
  {
    if n > 0 {
      PowerOf256(n - 1);
    }
  }

  // Octet k, taken modulo the base, is the digit of `v` at its place.
  predicate IsDigit(s: Bytes, base: nat, v: nat, k: nat)
    requires base > 0 && k < |s|
  {
    v / Power(base, |s| - 1 - k) % base == s[k] % base
  }

  // The octets are the digits of `v`, most significant first.
  ghost predicate HasDigits(s: Bytes, base: nat, v: nat)
    requires base > 0
  {
    v < Power(base, |s|) && forall k :: 0 <= k < |s| ==> IsDigit(s, base, v, k)
  }

  lemma QuotientTwice(v: nat, b: nat, p: nat)
    requires b > 0 && p > 0
    ensures b * p > 0 && v / (b * p) == v / b / p
  {
    var q := v / b;
    var a := q / p;
    var r := b * (q % p) + v % b;
    BelowProduct(q % p, v % b, b, p);
    Regrouped(v, b, p, a, q % p, v % b);
    RemainderIsUnique(v, b * p, a, r);
  }

  lemma BelowProduct(x: nat, y: nat, b: nat, p: nat)
    requires x < p && y < b
    ensures b * x + y < b * p
  {
    assert b * x <= b * (p - 1) == b * p - b;
  }

  lemma Regrouped(v: nat, b: nat, p: nat, a: nat, x: nat, y: nat)
    requires b > 0 && v / b == p * a + x && v % b == y
    ensures v == b * p * a + (b * x + y)
  {
    assert v == b * (v / b) + y;
    assert b * (p * a + x) == b * p * a + b * x;
  }

  lemma FitsOneMore(v: nat, b: nat, p: nat)
    requires b > 0
    ensures v < b * p <==> v / b < p
  {
    assert v == b * (v / b) + v % b;
    if v / b < p {
      assert b * (v / b) <= b * (p - 1);
    } else {
      assert b * (v / b) >= b * p;
    }
  }

  lemma SameDigit(s: Bytes, base: nat, v: nat, k: nat)
    requires base > 0 && k < |s| - 1
    ensures IsDigit(s, base, v, k) <==> IsDigit(s[..|s| - 1], base, v / base, k)
  {
    QuotientTwice(v, base, Power(base, |s| - 2 - k));
  }

  lemma DigitAtEnd(s: Bytes, base: nat, v: nat)
    requires base > 0 && s != []
    ensures IsDigit(s, base, v, |s| - 1) <==> v % base == s[|s| - 1] % base
  {
  }

  // The last digit is the remainder, and the others are those of the quotient.
  lemma LastDigit(s: Bytes, base: nat, v: nat)
    requires base > 0 && s != []
    ensures HasDigits(s, base, v) <==> HasDigits(s[..|s| - 1], base, v / base) && v % base == s[|s| - 1] % base
  {
    hide IsDigit;
    var n := |s| - 1;
    FitsOneMore(v, base, Power(base, n));
    DigitAtEnd(s, base, v);
    forall k | 0 <= k < n
      ensures IsDigit(s, base, v, k) <==> IsDigit(s[..n], base, v / base, k)
    {
      SameDigit(s, base, v, k);
    }
  }

  // The number read from octets is the one whose digits they are.
  lemma {:induction false} DigitsAreRead(s: Bytes, v: nat)
    ensures HasDigits(s, 256, v) <==> FromBE(s) == v
  {
    hide HasDigits;
    if s == [] {
      NoDigits(256, v);
    } else {
      LastDigit(s, 256, v);
      DigitsAreRead(s[..|s| - 1], v / 256);
    }
  }

  lemma NoDigits(base: nat, v: nat)
    requires base > 0
    ensures HasDigits([], base, v) <==> v == 0
  {
  }

  // The two's-complement number of octets: half the numbers of so many octets are negative.
  ghost predicate IsSigned(s: Bytes, v: int) {
    if s == [] then v == 0
    else
      && 0 - Power(256, |s|) <= 2 * v < Power(256, |s|)
      && HasDigits(s, 256, if v < 0 then v + Power(256, |s|) else v)
  }

  lemma SignedIsRead(s: Bytes, v: int)
    ensures IsSigned(s, v) <==> SignedBE(s) == v
  {
    if s != [] {
      hide HasDigits;
      var p := Power(256, |s|);
      PowerOf256(|s|);
      FirstOctet(s);
      FromBEBound(s);
      if 0 - p <= 2 * v < p {
        DigitsAreRead(s, if v < 0 then v + p else v);
      }
    }
  }

  // --- elements --------------------------------------------------------------------------

  // Length octets of the definite forms (X.690, section 8.1.3): short, or announced by a first
  // octet, leading zeros allowed.
  ghost predicate IsLength(octets: Bytes, n: nat) {
    && octets != []
    && (if octets[0] < 128 then |octets| == 1 && n == octets[0]
        else octets[0] > 128 && |octets| == octets[0] - 127 && HasDigits(octets[1..], 256, n))
  }

  // The octets of an element one after the other at the head of `s`.
  ghost predicate HasParts(s: Bytes, identifier: Bytes, length: Bytes, content: Bytes) {
    && IsIdentifier(identifier)
    && IsLength(length, |content|)
    && identifier + length + content <= s
  }

  ghost predicate BeginsWith(s: Bytes, t: Tlv) {
    exists identifier: Bytes, length: Bytes ::
      && HasParts(s, identifier, length, t.value)
      && HasDigits(identifier, 256, t.tag)
      && t.end == |identifier| + |length| + |t.value|
  }

  // Length octets are read as what they announce, whatever follows.
  lemma LengthIsRead(octets: Bytes, rest: Bytes, n: nat)
    requires IsLength(octets, n)
    ensures LengthOf(octets + rest) == Ok((n, |octets|))
  {
    if octets[0] > 128 {
      assert (octets + rest)[1..|octets|] == octets[1..];
      DigitsAreRead(octets[1..], n);
    }
  }

  lemma ReadIsLength(s: Bytes)
    requires LengthOf(s).Ok?
    ensures var (n, m) := LengthOf(s).value; IsLength(s[..m], n)
  {
    if s[0] >= 128 {
      var (n, m) := LengthOf(s).value;
      assert s[..m][1..] == s[1..m];
      DigitsAreRead(s[1..m], n);
    }
  }

  lemma TagPart(s: Bytes)
    requires TagOf(s).Ok?
    ensures IsIdentifier(s[..TagOf(s).value.1]) && HasDigits(s[..TagOf(s).value.1], 256, TagOf(s).value.0)
  {
    hide HasDigits, IsIdentifier;
    TagReadIsIdentifier(s);
    DigitsAreRead(s[..TagOf(s).value.1], TagOf(s).value.0);
  }

  // What is read at the head of octets is the element they begin with, if they begin with one.
  lemma ElementIsRead(s: Bytes, t: Tlv)
    ensures TlvOf(s) == Ok(t) <==> BeginsWith(s, t)
  {
    if TlvOf(s) == Ok(t) {
      ReadIsElement(s);
    }
    if BeginsWith(s, t) {
      var identifier: Bytes, length: Bytes :| && HasParts(s, identifier, length, t.value)
                                              && HasDigits(identifier, 256, t.tag)
                                              && t.end == |identifier| + |length| + |t.value|;
      PartsAreRead(s, identifier, length, t.value);
      DigitsAreRead(identifier, t.tag);
    }
  }

  lemma ReadIsElement(s: Bytes)
    requires TlvOf(s).Ok?
    ensures BeginsWith(s, TlvOf(s).value)
  {
    hide TagOf, LengthOf, HasDigits, IsIdentifier, IsLength;
    var t := TlvOf(s).value;
    var n := TagOf(s).value.1;
    var m := LengthOf(s[n..]).value.1;
    TagPart(s);
    ReadIsLength(s[n..]);
    assert s[n..][..m] == s[n..n + m];
    assert s[..n] + s[n..n + m] + s[n + m..t.end] == s[..t.end];
    assert HasParts(s, s[..n], s[n..n + m], t.value);
  }

  // Octets after an identifier are read from where it ends.
  lemma AfterTag(s: Bytes, n: nat)
    requires n <= |s| && IsIdentifier(s[..n])
    ensures TagOf(s) == Ok((FromBE(s[..n]), n))
  {
    assert s[..n] + s[n..] == s;
    TagOfIdentifier(s[..n], s[n..]);
  }

  lemma PartsAreRead(s: Bytes, identifier: Bytes, length: Bytes, content: Bytes)
    requires HasParts(s, identifier, length, content)
    ensures TlvOf(s) == Ok(Tlv(FromBE(identifier), content, |identifier| + |length| + |content|))
  {
    hide *;
    var n, m, k := |identifier|, |length|, |content|;
    PartsAt(s, identifier, length, content);
    AfterTag(s, n);
    LengthIsRead(length, s[n + m..], k);
    ReadInParts(s, FromBE(identifier), n, k, m);
  }

  lemma ReadInParts(s: Bytes, tag: nat, n: nat, length: nat, m: nat)
    requires n + m + length <= |s| && TagOf(s) == Ok((tag, n)) && LengthOf(s[n..]) == Ok((length, m))
    ensures TlvOf(s) == Ok(Tlv(tag, s[n + m..n + m + length], n + m + length))
  {
    hide TagOf, LengthOf;
  }

  lemma PartsAt(s: Bytes, identifier: Bytes, length: Bytes, content: Bytes)
    requires HasParts(s, identifier, length, content)
    ensures IsIdentifier(identifier) && IsLength(length, |content|)
    ensures var n, m, k := |identifier|, |length|, |content|;
            && n + m + k <= |s| && s[..n] == identifier && s[n..] == length + s[n + m..]
            && s[n + m..n + m + k] == content
  {
    hide IsIdentifier, IsLength;
    var n, m, k := |identifier|, |length|, |content|;
    assert s[..n + m + k] == identifier + length + content;
    assert s[n..n + m] == length;
  }

  // Why octets begin with no element.
  ghost predicate Fails(s: Bytes, e: BerError) {
    match e
    case MissingTag => s == []
    case TruncatedTag => s != [] && s[0] % 32 == 31 && forall k :: 1 <= k < |s| ==> s[k] >= 128
    case MissingLength => IsIdentifier(s)
    case IndefiniteLength => exists n :: 0 <= n < |s| && IsIdentifier(s[..n]) && s[n] == 128
    case TruncatedLength =>
      exists n :: 0 <= n < |s| && IsIdentifier(s[..n]) && s[n] > 128 && |s| - n < s[n] - 127
    case Truncated =>
      exists n, m, length: nat ::
        0 <= n <= m <= |s| && IsIdentifier(s[..n]) && IsLength(s[n..m], length) && |s| - m < length
    case _ => false
  }

  lemma FaultIsRead(s: Bytes, e: BerError)
    ensures TlvOf(s) == Err(e) <==> Fails(s, e)
  {
    if TlvOf(s) == Err(e) {
      FaultIsMeant(s);
    }
    if Fails(s, e) {
      FaultIsFound(s, e);
    }
  }

  lemma FaultIsMeant(s: Bytes)
    requires TlvOf(s).Err?
    ensures Fails(s, TlvOf(s).error)
  {
    hide HasDigits, IsIdentifier;
    match TagOf(s)
    case Err(e) => TagFault(s);
    case Ok((tag, n)) =>
      TagPart(s);
      hide TagOf;
      if n == |s| {
        assert s[..n] == s;
      } else if LengthOf(s[n..]).Ok? {
        var (length, k) := LengthOf(s[n..]).value;
        ReadIsLength(s[n..]);
        assert s[n..][..k] == s[n..n + k];
        assert IsLength(s[n..n + k], length);
      }
  }

  lemma TagFault(s: Bytes)
    requires TagOf(s).Err?
    ensures TagOf(s).error in {MissingTag, TruncatedTag} && Fails(s, TagOf(s).error)
  {
    if s != [] {
      RestFault(s, 1, s[0]);
    }
  }

  lemma {:induction false} RestFault(s: Bytes, at: nat, tag: nat)
    requires 1 <= at <= |s| && tag == FromBE(s[..at]) && TagRest(s, at, tag).Err?
    ensures TagRest(s, at, tag) == Err(TruncatedTag) && forall k :: at <= k < |s| ==> s[k] >= 128
    decreases |s| - at
  {
    if at < |s| {
      assert s[..at + 1][..at] == s[..at];
      RestFault(s, at + 1, tag * 256 + s[at]);
    }
  }

  lemma FaultIsFound(s: Bytes, e: BerError)
    requires Fails(s, e)
    ensures TlvOf(s) == Err(e)
  {
    hide HasDigits, IsIdentifier, TagOf, LengthOf, IsLength;
    match e
    case MissingTag => TagIsMissing(s);
    case TruncatedTag => TagIsTruncated(s);
    case MissingLength =>
      assert s[..|s|] == s && s[|s|..] == [];
      AfterTag(s, |s|);
      LengthFault(s[|s|..]);
    case IndefiniteLength =>
      var n :| 0 <= n < |s| && IsIdentifier(s[..n]) && s[n] == 128;
      AfterTag(s, n);
      LengthFault(s[n..]);
    case TruncatedLength =>
      var n :| 0 <= n < |s| && IsIdentifier(s[..n]) && s[n] > 128 && |s| - n < s[n] - 127;
      AfterTag(s, n);
      LengthFault(s[n..]);
    case Truncated =>
      var n, m, length: nat :|
        0 <= n <= m <= |s| && IsIdentifier(s[..n]) && IsLength(s[n..m], length) && |s| - m < length;
      AfterTag(s, n);
      assert s[n..m] + s[m..] == s[n..];
      LengthIsRead(s[n..m], s[m..], length);
  }

  lemma TagIsMissing(s: Bytes)
    requires s == []
    ensures TlvOf(s) == Err(MissingTag)
  {
  }

  lemma TagIsTruncated(s: Bytes)
    requires Fails(s, TruncatedTag)
    ensures TlvOf(s) == Err(TruncatedTag)
  {
    if TagOf(s).Ok? {
      TagReadIsIdentifier(s);
      assert false;
    } else {
      TagFault(s);
    }
  }

  lemma LengthFault(s: Bytes)
    ensures s == [] ==> LengthOf(s) == Err(MissingLength)
    ensures s != [] && s[0] == 128 ==> LengthOf(s) == Err(IndefiniteLength)
    ensures s != [] && s[0] > 128 && |s| < s[0] - 127 ==> LengthOf(s) == Err(TruncatedLength)
  {
  }

  // --- lists of elements -----------------------------------------------------------------

  // The elements the octets consist of, one after the other.
  ghost predicate ConsistsOf(s: Bytes, ts: seq<Tlv>) {
    if ts == [] then s == []
    else BeginsWith(s, ts[0]) && ts[0].end <= |s| && ConsistsOf(s[ts[0].end..], ts[1..])
  }

  lemma {:induction false} ElementsAreRead(s: Bytes, ts: seq<Tlv>)
    ensures Tlvs(s) == Ok(ts) <==> ConsistsOf(s, ts)
    decreases |s|
  {
    hide TlvOf, BeginsWith;
    if s == [] {
      NothingBegins(s);
    } else if ts != [] {
      ElementIsRead(s, ts[0]);
      if TlvOf(s).Ok? {
        var t := TlvOf(s).value;
        ElementsAreRead(s[t.end..], ts[1..]);
        assert ts == [ts[0]] + ts[1..];
      }
    }
  }

  lemma NothingBegins(s: Bytes)
    requires s == []
    ensures forall t: Tlv :: !BeginsWith(s, t)
  {
  }

  // --- values ----------------------------------------------------------------------------

  // Content octets of a tag that stand for a value without members.
  ghost predicate Denotes(tag: nat, octets: Bytes, l: Leaf) {
    match l
    case Bool(flag) => tag == 0x83 && (flag <==> octets != [] && octets[0] != 0)
    case BitString(bits, unused) =>
      tag == 0x84 && (if octets == [] then bits == [] && unused == 0 else unused == octets[0] && bits == octets[1..])
    case Int(v) => tag == 0x85 && IsSigned(octets, v)
    case UInt(v) => tag == 0x86 && HasDigits(octets, 256, v)
    case Float32(bits) => tag == 0x87 && |octets| == 5 && bits == octets[1..]
    case Float64(bits) => tag == 0x87 && |octets| == 9 && bits == octets[1..]
    case OctetString(s) => tag == 0x89 && s == octets
    case VisibleString(s) => tag in {0x8A, 0x1A, 0x80} && s == octets
    case MmsString(s) => tag == 0x8F && s == octets
    case BinaryTime(s) => tag == 0x8C && |octets| == 6 && s == octets
    case UtcTime(t) => tag == 0x91 && IsTime(octets, t)
    case Raw(n, s) => n == tag && s == octets && NotMeant(tag, |octets|)
  }

  // Seconds, fraction of a second and quality; octets after the eighth are ignored.
  ghost predicate IsTime(octets: Bytes, t: Utc) {
    && |octets| >= 8 && HasDigits(octets[..4], 256, t.seconds) && HasDigits(octets[4..7], 256, t.fraction)
    && t.quality == octets[7]
  }

  predicate NotMeant(tag: nat, octets: nat) {
    && tag !in {0x83, 0x84, 0x85, 0x86, 0x89, 0x8A, 0x1A, 0x80, 0x8F}
    && (tag == 0x87 ==> octets !in {5, 9}) && (tag == 0x8C ==> octets != 6) && (tag == 0x91 ==> octets < 8)
  }

  lemma TimeIsRead(octets: Bytes, t: Utc)
    ensures DecodeUtc(octets) == Some(t) <==> IsTime(octets, t)
  {
    if |octets| >= 8 {
      DigitsAreRead(octets[..4], t.seconds);
      DigitsAreRead(octets[4..7], t.fraction);
      assert octets[0..4] == octets[..4];
    }
  }

  // Every content of every tag is read as what it stands for.
  lemma LeafIsRead(tag: nat, octets: Bytes, l: Leaf)
    ensures DecodeLeaf(tag, octets) == l <==> Denotes(tag, octets, l)
  {
    hide HasDigits, IsSigned, SignedBE, FromBE, DecodeUtc, IsTime;
    match l
    case Int(v) => SignedIsRead(octets, v);
    case UInt(v) => DigitsAreRead(octets, v);
    case UtcTime(t) =>
      TimeIsRead(octets, t);
      TimeNeedsEight(octets);
    case _ =>
  }

  lemma TimeNeedsEight(octets: Bytes)
    ensures DecodeUtc(octets).Some? <==> |octets| >= 8
  {
  }

  // What the native reader makes of the same octets: a number beyond 64 bits stays octets.
  ghost predicate NativelyDenotes(tag: nat, octets: Bytes, l: Leaf) {
    match l
    case Int(v) => Denotes(tag, octets, l) && -0x8000_0000_0000_0000 <= v < 0x8000_0000_0000_0000
    case UInt(v) => Denotes(tag, octets, l) && v < 0x1_0000_0000_0000_0000
    case Raw(n, s) =>
      && n == tag && s == octets
      && (|| NotMeant(tag, |octets|)
          || (tag == 0x85 && forall v: int :: IsSigned(octets, v) ==>
                !(-0x8000_0000_0000_0000 <= v < 0x8000_0000_0000_0000))
          || (tag == 0x86 && forall v: nat :: HasDigits(octets, 256, v) ==> v >= 0x1_0000_0000_0000_0000))
    case _ => Denotes(tag, octets, l)
  }

  lemma NativeLeafIsRead(tag: nat, octets: Bytes, l: Leaf)
    requires tag !in {0xA1, 0xA2}
    ensures FlatReader.NativeValue(tag, octets) == Ok(FlatData.One(l)) <==> NativelyDenotes(tag, octets, l)
  {
    hide HasDigits, IsSigned, SignedBE, FromBE, IsTime, DecodeLeaf;
    var d := DecodeLeaf(tag, octets);
    LeafIsRead(tag, octets, d);
    LeafIsRead(tag, octets, l);
    forall v: int
      ensures IsSigned(octets, v) <==> SignedBE(octets) == v
    {
      SignedIsRead(octets, v);
    }
    forall v: nat
      ensures HasDigits(octets, 256, v) <==> FromBE(octets) == v
    {
      DigitsAreRead(octets, v);
    }
  }

  // A container is read as its tag and the number of its elements.
  lemma NativeContainerIsRead(tag: nat, octets: Bytes, n: nat)
    ensures FlatReader.NativeValue(tag, octets) == Ok(FlatData.StructureOf(n))
       <==> tag == 0xA2 && exists ts :: ConsistsOf(octets, ts) && |ts| == n
    ensures FlatReader.NativeValue(tag, octets) == Ok(FlatData.ArrayOf(n))
       <==> tag == 0xA1 && exists ts :: ConsistsOf(octets, ts) && |ts| == n
  {
    hide Tlvs, ConsistsOf, FlatReader.NativeLeaf;
    forall ts
      ensures Tlvs(octets) == Ok(ts) <==> ConsistsOf(octets, ts)
    {
      ElementsAreRead(octets, ts);
    }
    if Tlvs(octets).Ok? {
      assert ConsistsOf(octets, Tlvs(octets).value);
    }
  }

  // The octets spell values: one element for each, its content standing for a leaf or spelling
  // the members.
  ghost predicate Spells(s: Bytes, vs: seq<Value>)
    decreases vs, 0
  {
    if vs == [] then s == []
    else exists t: Tlv ::
      BeginsWith(s, t) && SpellsOne(t.tag, t.value, vs[0]) && t.end <= |s| && Spells(s[t.end..], vs[1..])
  }

  ghost predicate SpellsOne(tag: nat, content: Bytes, v: Value)
    decreases v, 1
  {
    match v
    case Single(l) => tag !in {0xA1, 0xA2} && Denotes(tag, content, l)
    case Structure(members) => tag == 0xA2 && Spells(content, members)
    case Array(members) => tag == 0xA1 && Spells(content, members)
  }

  // Octets are decoded as the values they spell, nested to any depth, and are refused exactly
  // when they spell none.
  lemma {:induction false} SpellingIsRead(s: Bytes, vs: seq<Value>)
    ensures DecodeSequence(s) == Ok(vs) <==> Spells(s, vs)
    decreases |s|, 1
  {
    hide TlvOf, BeginsWith, SpellsOne, DecodeData;
    if s == [] {
      NothingBegins(s);
    } else if vs != [] {
      if DecodeSequence(s) == Ok(vs) {
        var t := TlvOf(s).value;
        ElementIsRead(s, t);
        OneIsRead(t.tag, t.value, vs[0]);
        SpellingIsRead(s[t.end..], vs[1..]);
        assert BeginsWith(s, t) && SpellsOne(t.tag, t.value, vs[0]);
      }
      if Spells(s, vs) {
        var t: Tlv :| BeginsWith(s, t) && SpellsOne(t.tag, t.value, vs[0]) && t.end <= |s| && Spells(s[t.end..], vs[1..]);
        ElementIsRead(s, t);
        OneIsRead(t.tag, t.value, vs[0]);
        SpellingIsRead(s[t.end..], vs[1..]);
        assert vs == [vs[0]] + vs[1..];
      }
    }
  }

  lemma {:induction false} OneIsRead(tag: nat, content: Bytes, v: Value)
    ensures DecodeData(tag, content) == Ok(v) <==> SpellsOne(tag, content, v)
    decreases |content|, 2
  {
    hide DecodeSequence, Spells, DecodeLeaf, Denotes;
    match v
    case Single(l) => LeafIsRead(tag, content, l);
    case Structure(members) => SpellingIsRead(content, members);
    case Array(members) => SpellingIsRead(content, members);
  }

  // --- what is written -------------------------------------------------------------------

  // The content octets written for a value, and the tag they go under: TRUE is FF, numbers take
  // the fewest octets a signed number can, a float follows the size of its exponent, and a bit
  // string its unused bits.
  ghost predicate Writes(l: Leaf, tag: nat, octets: Bytes) {
    match l
    case Bool(flag) => tag == 0x83 && octets == [if flag then 0xFF else 0x00]
    case BitString(bits, unused) => tag == 0x84 && |octets| == 1 + |bits| && octets[0] == unused && octets[1..] == bits
    case Int(v) => tag == 0x85 && IsShortest(octets, v)
    case UInt(v) => tag == 0x86 && IsShortest(octets, v)
    case Float32(bits) => tag == 0x87 && octets == [8] + bits
    case Float64(bits) => tag == 0x87 && octets == [11] + bits
    case OctetString(s) => tag == 0x89 && octets == s
    case VisibleString(s) => tag == 0x8A && octets == s
    case MmsString(s) => tag == 0x8F && octets == s
    case BinaryTime(s) => tag == 0x8C && octets == s
    case UtcTime(t) => tag == 0x91 && |octets| == 8 && IsTime(octets, t.(fraction := Min(t.fraction, 0xFF_FFFF)))
    case Raw(n, s) => tag == n && octets == s
  }

  ghost predicate IsShortest(octets: Bytes, v: int) {
    octets != [] && IsSigned(octets, v) && forall s: Bytes :: s != [] && IsSigned(s, v) ==> |octets| <= |s|
  }

  lemma IntegerIsShortest(v: int)
    ensures IsShortest(EncodeInteger(v), v)
  {
    hide IsSigned, SignedBE;
    IntegerRoundTrip(v);
    SignedIsRead(EncodeInteger(v), v);
    forall s: Bytes | s != [] && IsSigned(s, v)
      ensures IntegerLength(v) <= |s|
    {
      SignedIsRead(s, v);
      IntegerIsMinimal(s);
    }
  }

  lemma LeafIsWritten(l: Leaf)
    requires TypedLeaf(l)
    ensures Writes(l, LeafTag(l), LeafContent(l))
  {
    hide IsTime, EncodeUtc, DecodeUtc, EncodeInteger, IsShortest;
    match l
    case Int(v) => IntegerIsShortest(v);
    case UInt(v) => IntegerIsShortest(v);
    case UtcTime(t) =>
      UtcRoundTrip(t);
      TimeIsRead(EncodeUtc(t), t.(fraction := Min(t.fraction, 0xFF_FFFF)));
    case _ =>
  }

  // An element is written with its tag and the shortest length octets there are.
  lemma ElementIsWritten(tag: nat, content: Bytes)
    requires WellFormedTag(tag) && |content| < TWO_64
    ensures HasParts(EncodeTlv(tag, content), EncodeTag(tag), EncodeLength(|content|), content)
    ensures EncodeTlv(tag, content) == EncodeTag(tag) + EncodeLength(|content|) + content
    ensures HasDigits(EncodeTag(tag), 256, tag)
    ensures forall octets: Bytes :: IsLength(octets, |content|) ==> |EncodeLength(|content|)| <= |octets|
  {
    hide HasDigits;
    EncodedTagValue(tag);
    DigitsAreRead(EncodeTag(tag), tag);
    LengthIsShortest(|content|);
  }

  lemma LengthIsShortest(n: nat)
    requires n < TWO_64
    ensures IsLength(EncodeLength(n), n)
    ensures forall octets: Bytes :: IsLength(octets, n) ==> |EncodeLength(n)| <= |octets|
  {
    hide HasDigits;
    if n >= 128 {
      Powers();
      OctetCountAtMost(n, 8);
      OctetCountIsLeast(n);
      FromToBE(n, OctetCount(n));
      DigitsAreRead(ToBE(n, OctetCount(n)), n);
      assert EncodeLength(n)[1..] == ToBE(n, OctetCount(n));
      forall octets: Bytes | IsLength(octets, n)
        ensures OctetCount(n) <= |octets| - 1
      {
        DigitsAreRead(octets[1..], n);
        FromBEBound(octets[1..]);
        OctetCountAtMost(n, |octets| - 1);
      }
    }
  }
}
