/**
 How many octets the entry of a change takes in the buffer: at least six, more with more
 members.
 */
module ReportSizes {
  import opened Octets
  import opened Ber
  import opened Data
  import opened ReportWire
  import opened Reporting

  // One member with an empty value and its reason.
  const SMALLEST_ENTRY: nat := 6

  function ItemSize(item: Item): nat {
    |EncodeResult(item.value)| + |EncodeResult(Success(Single(BitLeaf(ReasonBits(item.reason)))))|
  }

  // The octets of the members below `n`.
  function ContentSize(items: Change, n: nat): nat {
    if n == 0 then 0 else ContentSize(items, n - 1) + (if n - 1 in items then ItemSize(items[n - 1]) else 0)
  }

  lemma ResultsSnoc(rs: seq<AccessResult>, r: AccessResult)
    ensures |EncodeResults(rs + [r])| == |EncodeResults(rs)| + |EncodeResult(r)|
  {
    hide EncodeResult;
    ResultsConcat(rs, [r]);
    assert [r][1..] == [];
  }

  lemma MemberSnoc(items: Change, indexes: seq<nat>, n: nat)
    requires (forall i :: 0 <= i < |indexes| ==> indexes[i] in items) && n in items
    ensures var more := indexes + [n];
            |EncodeResults(ValuesOf(items, more))| + |EncodeResults(Leaves(ReasonLeaves(ReasonsOf(items, more))))|
            == |EncodeResults(ValuesOf(items, indexes))| + |EncodeResults(Leaves(ReasonLeaves(ReasonsOf(items, indexes))))|
               + ItemSize(items[n])
  {
    hide EncodeResult, EncodeResults, BitLeaf;
    var more := indexes + [n];
    var reason := Success(Single(BitLeaf(ReasonBits(items[n].reason))));
    assert ValuesOf(items, more) == ValuesOf(items, indexes) + [items[n].value];
    assert Leaves(ReasonLeaves(ReasonsOf(items, more))) == Leaves(ReasonLeaves(ReasonsOf(items, indexes))) + [reason];
    ResultsSnoc(ValuesOf(items, indexes), items[n].value);
    ResultsSnoc(Leaves(ReasonLeaves(ReasonsOf(items, indexes))), reason);
  }

  lemma {:induction false} EntrySize(id: nat, width: nat, items: Change)
    ensures Size(MakeEntry(id, width, items)) == ContentSize(items, width)
  {
    hide EncodeResult, EncodeResults, ItemSize, Leaves, ReasonLeaves, ValuesOf, ReasonsOf;
    if width == 0 {
      NoContent();
    } else {
      EntrySize(id, width - 1, items);
      if width - 1 in items {
        MemberSnoc(items, Sorted(items.Keys, width - 1), width - 1);
      } else {
        assert Sorted(items.Keys, width) == Sorted(items.Keys, width - 1);
      }
    }
  }

  lemma NoContent()
    ensures EncodeResults(ValuesOf(map[], [])) == [] && EncodeResults(Leaves(ReasonLeaves(ReasonsOf(map[], [])))) == []
  {
  }

  lemma ItemAtLeast(item: Item)
    ensures ItemSize(item) >= SMALLEST_ENTRY
  {
    hide EncodeTag, EncodeLength, EncodeInteger, BitLeaf, LeafTag;
    assert |EncodeResult(item.value)| >= 2;
    ReasonSize(item.reason);
  }

  lemma ReasonSize(r: Reason)
    ensures |EncodeResult(Success(Single(BitLeaf(ReasonBits(r)))))| == 4
  {
    hide OctetOfBits;
    ShortTag(TAG_BIT_STRING);
    var l := BitLeaf(ReasonBits(r));
    assert |l.bits| == 1;
    assert |LeafContent(l)| == 2;
  }

  lemma {:induction false} ContentAtLeast(items: Change, n: nat, k: nat)
    requires k in items && k < n
    ensures ContentSize(items, n) >= SMALLEST_ENTRY
  {
    hide ItemSize;
    ItemAtLeast(items[k]);
    if k < n - 1 {
      ContentAtLeast(items, n - 1, k);
    }
  }

  // More members take no less.
  lemma {:induction false} ContentGrows(a: Change, b: Change, n: nat, m: nat)
    requires n <= m && forall k :: k in a ==> k in b && b[k] == a[k]
    ensures ContentSize(a, n) <= ContentSize(b, m)
  {
    hide ItemSize;
    if n < m {
      ContentGrows(a, b, n, m - 1);
    } else if n > 0 {
      ContentGrows(a, b, n - 1, n - 1);
    }
  }

  // The first member changes to an empty string.
  function SmallChange(): Change {
    map[0 := Item(Reason(true, false, false, false, false, false), Success(Single(VisibleString([]))))]
  }

  lemma {:induction false} SmallContent(n: nat)
    requires n > 0
    ensures ContentSize(SmallChange(), n) == SMALLEST_ENTRY
  {
    hide ItemSize;
    if n == 1 {
      SmallItem();
      assert ContentSize(SmallChange(), 0) == 0;
    } else {
      SmallContent(n - 1);
    }
  }

  lemma SmallItem()
    ensures ItemSize(SmallChange()[0]) == SMALLEST_ENTRY
  {
    hide BitLeaf, EncodeResult;
    ReasonSize(SmallChange()[0].reason);
    EmptyString();
  }

  lemma EmptyString()
    ensures |EncodeResult(Success(Single(VisibleString([]))))| == 2
  {
    hide EncodeTag;
    ShortTag(TAG_VISIBLE_STRING);
    assert LeafContent(VisibleString([])) == [];
  }
}
