/**
 The reading half of the native `data.rs`: `check_sequence` validates nested values of
 any depth in one pass, and the `Values` iterator walks them in preorder, both without
 recursion. They accept and yield what the recursive decoder of module Data does.
 */
module FlatReader {
  import opened Octets
  import opened Ber
  import opened Data
  import opened FlatData

  // --- the one-pass walk -----------------------------------------------------------------

  predicate Tiles(s: Bytes) {
    Tlvs(s).Ok?
  }

  // Where the walk goes on after the TLV at the head of `s`: into a container, past a leaf.
  function After(s: Bytes, t: Tlv): (rest: Bytes)
    requires TlvOf(s) == Ok(t)
    ensures |rest| < |s|
  {
    if IsContainer(t.tag) then s[t.end - |t.value|..] else s[t.end..]
  }

  // One pass over `s`: `visit` holds of every TLV met, containers entered.
  predicate Walk(s: Bytes, visit: (nat, Bytes) -> bool)
    decreases |s|
  {
    s == [] || (TlvOf(s).Ok? && var t := TlvOf(s).value; visit(t.tag, t.value) && Walk(After(s, t), visit))
  }

  predicate MembersTile(tag: nat, value: Bytes) {
    IsContainer(tag) ==> Tiles(value)
  }

  lemma AfterAppended(s: Bytes, rest: Bytes)
    requires TlvOf(s).Ok?
    ensures TlvOf(s + rest) == TlvOf(s)
    ensures var t := TlvOf(s).value;
            After(s + rest, t) == if IsContainer(t.tag) then t.value + (s[t.end..] + rest) else s[t.end..] + rest
  {
    TlvOfPrefix(s, rest);
    var t := TlvOf(s).value;
    assert (s + rest)[t.end..] == s[t.end..] + rest;
    assert (s + rest)[t.end - |t.value|..] == t.value + (s[t.end..] + rest);
  }

  // Decoding by recursion requires the TLVs of every container to tile it; their number is
  // the number of values.
  lemma {:induction false} DecodedTiles(s: Bytes)
    requires DecodeSequence(s).Ok?
    ensures Tiles(s) && |Tlvs(s).value| == |DecodeSequence(s).value|
    decreases |s|
  {
    if s != [] {
      DecodedTiles(s[TlvOf(s).value.end..]);
    }
  }

  // The walk over a tiled `s` leaves it exactly at what follows, having accepted what the
  // recursive decoder accepts.
  lemma {:induction false} WalkIsDecode(s: Bytes, rest: Bytes)
    requires Tiles(s)
    ensures Walk(s + rest, MembersTile) <==> DecodeSequence(s).Ok? && Walk(rest, MembersTile)
    decreases |s|
  {
    if s == [] {
      assert s + rest == rest;
    } else {
      var t := TlvOf(s).value;
      AfterAppended(s, rest);
      WalkIsDecode(s[t.end..], rest);
      if IsContainer(t.tag) {
        if Tiles(t.value) {
          WalkIsDecode(t.value, s[t.end..] + rest);
        } else if DecodeSequence(t.value).Ok? {
          DecodedTiles(t.value);
        }
      }
    }
  }

  // `check_sequence` in one line: every container's members tile it, at any depth.
  lemma CheckIsDecode(s: Bytes)
    ensures Tiles(s) && Walk(s, MembersTile) <==> DecodeSequence(s).Ok?
  {
    if Tiles(s) {
      WalkIsDecode(s, []);
      assert s + [] == s;
    } else if DecodeSequence(s).Ok? {
      DecodedTiles(s);
    }
  }

  // The values of `s` and everything nested in them.
  predicate Everywhere(s: Bytes, visit: (nat, Bytes) -> bool)
    decreases |s|
  {
    s == [] || (TlvOf(s).Ok? && var t := TlvOf(s).value;
                visit(t.tag, t.value)
                && (IsContainer(t.tag) ==> Everywhere(t.value, visit))
                && Everywhere(s[t.end..], visit))
  }

  // On accepted octets, one pass visits every nested value.
  lemma {:induction false} WalkVisitsEverything(s: Bytes, rest: Bytes, visit: (nat, Bytes) -> bool)
    requires DecodeSequence(s).Ok?
    ensures Walk(s + rest, visit) <==> Everywhere(s, visit) && Walk(rest, visit)
    decreases |s|
  {
    if s == [] {
      assert s + rest == rest;
    } else {
      var t := TlvOf(s).value;
      AfterAppended(s, rest);
      WalkVisitsEverything(s[t.end..], rest, visit);
      if IsContainer(t.tag) {
        WalkVisitsEverything(t.value, s[t.end..] + rest, visit);
      }
    }
  }

  // The TLVs one pass meets, in order.
  function Met(s: Bytes): seq<(nat, Bytes)>
    decreases |s|
  {
    if s == [] || TlvOf(s).Err? then []
    else
      var t := TlvOf(s).value;
      [(t.tag, t.value)] + Met(After(s, t))
  }

  // The values of `s`, each followed by those nested in it.
  function Nested(s: Bytes): seq<(nat, Bytes)>
    decreases |s|
  {
    if s == [] || TlvOf(s).Err? then []
    else
      var t := TlvOf(s).value;
      [(t.tag, t.value)] + ((if IsContainer(t.tag) then Nested(t.value) else []) + Nested(s[t.end..]))
  }

  predicate Anything(tag: nat, value: Bytes) {
    true
  }

  // A pass that does not run into malformed octets holds of exactly what it meets.
  lemma {:induction false} WalkIsMet(s: Bytes, visit: (nat, Bytes) -> bool)
    ensures Walk(s, visit) <==> Walk(s, Anything) && forall k :: 0 <= k < |Met(s)| ==> visit(Met(s)[k].0, Met(s)[k].1)
    decreases |s|
  {
    hide TlvOf;
    if s != [] && TlvOf(s).Ok? {
      var t := TlvOf(s).value;
      WalkIsMet(After(s, t), visit);
      MetNext(s, t);
      var rest := Met(After(s, t));
      assert Met(s)[0] == (t.tag, t.value);
      assert forall k :: 0 <= k < |rest| ==> rest[k] == Met(s)[k + 1];
    }
  }

  // On accepted octets one pass meets the values of the tree in preorder: each once, and
  // nothing else.
  lemma WalkMeetsEachOnce(s: Bytes, rest: Bytes)
    requires DecodeSequence(s).Ok?
    ensures Met(s + rest) == Nested(s) + Met(rest)
    ensures |Nested(s)| == |Preorder(DecodeSequence(s).value)|
  {
    NestedAreAll(s);
    MetIsNested(s, rest);
  }

  lemma {:induction false} MetIsNested(s: Bytes, rest: Bytes)
    requires DecodeSequence(s).Ok?
    ensures Met(s + rest) == Nested(s) + Met(rest)
    decreases |s|
  {
    hide Met, Nested, TlvOf, DecodeSequence;
    NestedNext(s);
    if s == [] {
      assert s + rest == rest;
    } else {
      DecodedParts(s);
      var t := TlvOf(s).value;
      var tail := s[t.end..];
      AfterAppended(s, rest);
      MetIsNested(tail, rest);
      MetNext(s + rest, t);
      if IsContainer(t.tag) {
        MetIsNested(t.value, tail + rest);
        assert Nested(t.value) + (Nested(tail) + Met(rest)) == (Nested(t.value) + Nested(tail)) + Met(rest);
      }
    }
  }

  lemma DecodedParts(s: Bytes)
    requires s != [] && DecodeSequence(s).Ok?
    ensures TlvOf(s).Ok?
    ensures var t := TlvOf(s).value;
            DecodeSequence(s[t.end..]).Ok? && (IsContainer(t.tag) ==> DecodeSequence(t.value).Ok?)
  {
    hide TlvOf, DecodeLeaf;
  }

  lemma NestedNext(s: Bytes)
    ensures s == [] ==> Nested(s) == []
    ensures s != [] && TlvOf(s).Ok? ==>
              var t := TlvOf(s).value;
              Nested(s) == [(t.tag, t.value)] + ((if IsContainer(t.tag) then Nested(t.value) else []) + Nested(s[t.end..]))
  {
    hide TlvOf;
  }

  lemma MetNext(s: Bytes, t: Tlv)
    requires s != [] && TlvOf(s) == Ok(t)
    ensures Met(s) == [(t.tag, t.value)] + Met(After(s, t))
  {
    hide TlvOf;
  }

  lemma {:induction false} NestedAreAll(s: Bytes)
    requires DecodeSequence(s).Ok?
    ensures |Nested(s)| == |Preorder(DecodeSequence(s).value)|
    decreases |s|
  {
    hide TlvOf, DecodeLeaf;
    if s != [] {
      var t := TlvOf(s).value;
      NestedAreAll(s[t.end..]);
      FlattenDecoded(s);
      if IsContainer(t.tag) {
        NestedAreAll(t.value);
      }
    }
  }

  // --- the native methods ----------------------------------------------------------------

  // Number of TLVs tiling `content` exactly.
  method CountTlvs(content: Bytes) returns (r: Result<nat, BerError>)
    requires |content| < TWO_63
    ensures match Tlvs(content)
            case Err(e) => r == Err(e)
            case Ok(ts) => r == Ok(|ts|)
  {
    hide TlvOf;
    var n, offset := 0, 0;
    assert content[0..] == content;
    while offset < |content|
      invariant offset <= |content|
      invariant match Tlvs(content[offset..])
                case Err(e) => Tlvs(content) == Err(e)
                case Ok(ts) => Tlvs(content).Ok? && |Tlvs(content).value| == n + |ts|
    {
      var tlv := NativeDecodeTlv(content, offset);
      if tlv.Err? {
        return Err(tlv.error);
      }
      SuffixOfSuffix(content, offset, tlv.value.end);
      n := n + 1;
      offset := tlv.value.end;
    }
    return Ok(n);
  }

  // The number of top-level values when every container at every depth is tiled by its members.
  method CheckSequence(content: Bytes) returns (r: Result<nat, BerError>)
    requires |content| < TWO_63
    ensures r.Ok? <==> DecodeSequence(content).Ok?
    ensures r.Ok? ==> r.value == |DecodeSequence(content).value|
  {
    hide TlvOf, Tlvs, DecodeSequence;
    CheckIsDecode(content);
    var count := CountTlvs(content);
    if count.Err? {
      return Err(count.error);
    }
    var at := 0;
    assert content[0..] == content;
    while at < |content|
      invariant at <= |content|
      invariant Walk(content, MembersTile) <==> Walk(content[at..], MembersTile)
    {
      var tlv := NativeDecodeTlv(content, at);
      if tlv.Err? {
        return Err(tlv.error);
      }
      ghost var s := content[at..];
      SuffixOfSuffix(content, at, tlv.value.end);
      SuffixOfSuffix(content, at, tlv.value.end - |tlv.value.value|);
      if tlv.value.tag == TAG_STRUCTURE || tlv.value.tag == TAG_ARRAY {
        var members := CountTlvs(tlv.value.value);
        if members.Err? {
          return Err(members.error);
        }
        at := tlv.value.end - |tlv.value.value|;
      } else {
        at := tlv.value.end;
      }
      assert content[at..] == After(s, TlvOf(s).value);
    }
    if DecodeSequence(content).Ok? {
      DecodedTiles(content);
    }
    return count;
  }

  // An INTEGER's value when it fits in 64 bits: drops redundant sign octets, then extends.
  method NativeSigned(value: Bytes) returns (r: Option<int>)
    ensures r == if InI64(SignedBE(value)) then Some(SignedBE(value)) else None
  {
    if value == [] {
      return Some(0);
    }
    var fill := if value[0] >= 128 then 255 else 0;
    var v := value;
    while |v| > 1 && v[0] == fill && (v[1] >= 128) == (fill >= 128)
      invariant v != [] && (v[0] >= 128) == (fill >= 128)
      invariant SignedBE(v) == SignedBE(value)
    {
      SignOctet(v);
      v := v[1..];
    }
    Powers();
    if |v| > 8 {
      WideInteger(v);
      return None;
    }
    var octets := seq(8 - |v|, _ => fill) + v;
    SignExtension(v, fill, 8 - |v|);
    FirstOctet(octets);
    FromBEBound(octets);
    return Some(SignedBE(octets));
  }

  lemma SignOctet(v: Bytes)
    requires |v| > 1 && (v[0] == 0 || v[0] == 255) && (v[1] >= 128) == (v[0] >= 128)
    ensures SignedBE(v[1..]) == SignedBE(v)
  {
    HeadValue(v);
  }

  // Nine octets or more whose first octet matters do not fit in 64 bits.
  lemma WideInteger(v: Bytes)
    requires |v| > 8
    requires !(v[0] == 0 && v[1] < 128) && !(v[0] == 255 && v[1] >= 128)
    ensures !InI64(SignedBE(v))
  {
    Powers();
    HeadValue(v);
    var tail := v[1..];
    FromBEBound(tail);
    FirstOctet(tail);
    var p := Pow256(|tail|);
    PowersGrow(8, |tail|);
    assert FromBE(v) == v[0] * p + FromBE(tail);
    if v[0] >= 128 {
      TimesAtMost(v[0], 255, p);
      if v[0] < 255 {
        TimesAtMost(v[0], 254, p);
      }
    } else if v[0] > 0 {
      TimesAtMost(1, v[0], p);
    }
  }

  lemma {:induction false} SignExtension(v: Bytes, fill: Octet, n: nat)
    requires v != [] && (fill == 0 || fill == 255) && (v[0] >= 128) == (fill == 255)
    ensures SignedBE(seq(n, _ => fill) + v) == SignedBE(v)
  {
    var wide := seq(n, _ => fill) + v;
    if n == 0 {
      assert wide == v;
    } else {
      SignExtension(v, fill, n - 1);
      assert wide[1..] == seq(n - 1, _ => fill) + v;
      SignOctet(wide);
    }
  }

  // One value as the native decoder reads it: integers beyond 64 bits stay raw.
  function NativeLeaf(tag: nat, value: Bytes): Leaf {
    var l := DecodeLeaf(tag, value);
    if l.Int? && !InI64(l.value) then Raw(tag, value)
    else if l.UInt? && l.magnitude >= TWO_64 then Raw(tag, value)
    else l
  }

  function NativeValue(tag: nat, value: Bytes): Result<Item, BerError> {
    if IsContainer(tag) then
      match Tlvs(value)
      case Err(e) => Err(e)
      case Ok(ts) => Ok(if tag == TAG_ARRAY then ArrayOf(|ts|) else StructureOf(|ts|))
    else Ok(One(NativeLeaf(tag, value)))
  }

  method NativeDecodeValue(tag: nat, value: Bytes) returns (r: Result<Item, BerError>)
    requires |value| < TWO_63
    ensures r == NativeValue(tag, value)
  {
    if tag == TAG_INTEGER {
      var v := NativeSigned(value);
      return Ok(One(if v.Some? then Int(v.value) else Raw(tag, value)));
    }
    if tag == TAG_UNSIGNED {
      var v := NativeDecodeUnsigned(value);
      return Ok(One(if v.Ok? then UInt(v.value) else if v.error == EmptyInteger then UInt(0) else Raw(tag, value)));
    }
    if tag == TAG_ARRAY || tag == TAG_STRUCTURE {
      var n := CountTlvs(value);
      if n.Err? {
        return Err(n.error);
      }
      return Ok(if tag == TAG_ARRAY then ArrayOf(n.value) else StructureOf(n.value));
    }
    return Ok(One(DecodeLeaf(tag, value)));
  }

  // The values an iterator standing at the head of `s` still yields; it stops at the first
  // malformed TLV.
  function Items(s: Bytes): seq<Item>
    decreases |s|
  {
    if s == [] || TlvOf(s).Err? then []
    else
      var t := TlvOf(s).value;
      match NativeValue(NarrowTag(t.tag), t.value)
      case Err(_) => []
      case Ok(item) => [item] + Items(After(s, t))
  }

  class Values {
    const content: Bytes
    var at: nat

    ghost predicate Valid()
      reads this
    {
      at <= |content| < TWO_63
    }

    ghost function Remaining(): seq<Item>
      requires Valid()
      reads this
    {
      Items(content[at..])
    }

    constructor (content: Bytes)
      requires |content| < TWO_63
      ensures Valid() && this.content == content && Remaining() == Items(content)
    {
      this.content := content;
      at := 0;
      new;
      assert content[0..] == content;
    }

    method Next() returns (item: Option<Item>)
      requires Valid()
      modifies this
      ensures Valid()
      ensures match item
              case None => old(Remaining()) == [] && Remaining() == []
              case Some(i) => old(Remaining()) == [i] + Remaining()
    {
      hide TlvOf, Tlvs, NativeLeaf;
      if at >= |content| {
        return None;
      }
      ghost var s := content[at..];
      var tlv := NativeDecodeTlv(content, at);
      if tlv.Ok? {
        SuffixOfSuffix(content, at, tlv.value.end);
        SuffixOfSuffix(content, at, tlv.value.end - |tlv.value.value|);
        var value := NativeDecodeValue(tlv.value.tag, tlv.value.value);
        if value.Ok? {
          at := if value.value.One? then tlv.value.end else tlv.value.end - |tlv.value.value|;
          assert content[at..] == After(s, TlvOf(s).value);
          return Some(value.value);
        }
      }
      at := |content|;
      assert content[at..] == [];
      return None;
    }
  }

  // --- what the iterator yields ----------------------------------------------------------

  // The native reading of a value the recursive decoder read as `python`: the same, except
  // that an integer beyond 64 bits comes out as its octets, and a tag beyond 32 bits as 2^32 - 1.
  predicate SameReading(native: Item, python: Item) {
    match python
    case One(Int(v)) =>
      if InI64(v) then native == python
      else native.One? && native.leaf.Raw? && native.leaf.tag == TAG_INTEGER && SignedBE(native.leaf.octets) == v
    case One(UInt(v)) =>
      if v < TWO_64 then native == python
      else native.One? && native.leaf.Raw? && native.leaf.tag == TAG_UNSIGNED && FromBE(native.leaf.octets) == v
    case One(Raw(tag, octets)) => native == One(Raw(NarrowTag(tag), octets))
    case _ => native == python
  }

  // `all` reads as `python`, then goes on as `rest`.
  predicate YieldsThen(all: seq<Item>, python: seq<Item>, rest: seq<Item>) {
    && |all| == |python| + |rest|
    && (forall k :: 0 <= k < |python| ==> SameReading(all[k], python[k]))
    && all[|python|..] == rest
  }

  lemma YieldsTwice(a: seq<Item>, x: seq<Item>, b: seq<Item>, y: seq<Item>, c: seq<Item>)
    requires YieldsThen(a, x, b) && YieldsThen(b, y, c)
    ensures YieldsThen(a, x + y, c)
  {
    forall k | 0 <= k < |x + y|
      ensures SameReading(a[k], (x + y)[k])
    {
      if k >= |x| {
        assert a[k] == a[|x|..][k - |x|];
      }
    }
    assert a[|x + y|..] == a[|x|..][|y|..];
  }

  // On accepted octets the iterator yields the preorder of the recursive tree, and goes on
  // with what follows: it never stops early.
  lemma {:induction false} ItemsArePreorder(s: Bytes, rest: Bytes)
    requires DecodeSequence(s).Ok?
    ensures YieldsThen(Items(s + rest), Preorder(DecodeSequence(s).value), Items(rest))
    decreases |s|, 1
  {
    if s == [] {
      assert s + rest == rest;
    } else {
      var t := TlvOf(s).value;
      var tail := s[t.end..];
      FirstValue(s, rest);
      ItemsArePreorder(tail, rest);
      FlattenDecoded(s);
      YieldsTwice(Items(s + rest), Flatten(DecodeData(t.tag, t.value).value), Items(tail + rest),
                  Preorder(DecodeSequence(tail).value), Items(rest));
    }
  }

  lemma {:induction false} FirstValue(s: Bytes, rest: Bytes)
    requires s != [] && DecodeSequence(s).Ok?
    ensures var t := TlvOf(s).value;
            YieldsThen(Items(s + rest), Flatten(DecodeData(t.tag, t.value).value), Items(s[t.end..] + rest))
    decreases |s|, 0
  {
    var t := TlvOf(s).value;
    var more := s[t.end..] + rest;
    var v := DecodeData(t.tag, t.value).value;
    AfterAppended(s, rest);
    if v.Single? {
      LeafReading(t.tag, t.value);
      FirstItem(s + rest, t, One(v.leaf));
    } else {
      DecodedTiles(t.value);
      var head := Flatten(v)[0];
      FirstItem(s + rest, t, head);
      ItemsArePreorder(t.value, more);
      assert Flatten(v) == [head] + Preorder(v.members);
      YieldsTwice(Items(s + rest), [head], Items(t.value + more), Preorder(v.members), Items(more));
    }
  }

  // Narrowing a tag to 32 bits changes no branch of the decoder.
  lemma LeafReading(tag: nat, value: Bytes)
    requires !IsContainer(tag)
    ensures !IsContainer(NarrowTag(tag))
    ensures SameReading(One(NativeLeaf(NarrowTag(tag), value)), One(DecodeLeaf(tag, value)))
  {
  }

  lemma FirstItem(s: Bytes, t: Tlv, python: Item)
    requires s != [] && TlvOf(s) == Ok(t) && NativeValue(NarrowTag(t.tag), t.value).Ok?
    requires SameReading(NativeValue(NarrowTag(t.tag), t.value).value, python)
    ensures YieldsThen(Items(s), [python], Items(After(s, t)))
  {
  }

  lemma FlattenDecoded(s: Bytes)
    requires s != [] && DecodeSequence(s).Ok?
    ensures var t := TlvOf(s).value;
            var v := DecodeData(t.tag, t.value).value;
            Preorder(DecodeSequence(s).value) == Flatten(v) + Preorder(DecodeSequence(s[t.end..]).value)
  {
    var t := TlvOf(s).value;
    var v := DecodeData(t.tag, t.value).value;
    var tail := DecodeSequence(s[t.end..]).value;
    assert ([v] + tail)[1..] == tail;
  }

  // Native write then read: the very sequence that was written, its top-level count, and
  // every value reached by the iterator.
  lemma NativeRoundTrip(items: seq<Item>)
    requires Forest(items).Ok?
    requires TypedItems(items)
    requires AllLeaves(Forest(items).value, Readable)
    requires |EncodeSequence(Forest(items).value)| < TWO_64
    ensures var octets := EncodeSequence(Forest(items).value);
            && DecodeSequence(octets) == Ok(Forest(items).value)
            && Items(octets) == items
  {
    var octets := EncodeSequence(Forest(items).value);
    SequenceRoundTrip(Forest(items).value);
    ForestIsPreorder(items, 0);
    assert items[0..] == items;
    ItemsArePreorder(octets, []);
    assert octets + [] == octets;
    NativeReadingIsExact(Items(octets), items);
  }

  lemma NativeReadingIsExact(all: seq<Item>, items: seq<Item>)
    requires YieldsThen(all, items, [])
    requires TypedItems(items)
    ensures all == items
  {
    forall k | 0 <= k < |items|
      ensures all[k] == items[k]
    {
      assert SameReading(all[k], items[k]) && NativeItem(items[k]);
    }
  }
}
