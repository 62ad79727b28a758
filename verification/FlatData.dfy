/**
 The native `data.rs`: a tree of values is a flat preorder sequence. Writing measures
 first and recurses at most MAX_DEPTH deep; reading checks and walks any depth in one
 pass, with neither recursion nor a stack. Both are proved against the recursive trees
 of module Data.
 */
module FlatData {
  import opened Octets
  import opened Ber
  import opened Data

  const MAX_DEPTH: nat := 32

  // One value of a preorder sequence; a container is followed by its `n` members.
  datatype Item =
    | One(leaf: Leaf)
    | StructureOf(n: nat)
    | ArrayOf(n: nat)

  datatype DataError = MissingMembers | TooDeep | UnusedBits | BufferFull

  // --- preorder --------------------------------------------------------------------------

  function Preorder(vs: seq<Value>): seq<Item>
    decreases vs, 0
  {
    if vs == [] then [] else Flatten(vs[0]) + Preorder(vs[1..])
  }

  function Flatten(v: Value): (items: seq<Item>)
    ensures |items| >= 1
    decreases v, 1
  {
    match v
    case Single(l) => [One(l)]
    case Structure(members) => [StructureOf(|members|)] + Preorder(members)
    case Array(members) => [ArrayOf(|members|)] + Preorder(members)
  }

  // How deep containers nest in the values.
  function Depth(vs: seq<Value>): nat
    decreases vs, 0
  {
    if vs == [] then 0 else Max(DepthOf(vs[0]), Depth(vs[1..]))
  }

  function DepthOf(v: Value): nat
    decreases v, 1
  {
    if v.Single? then 0 else 1 + Depth(v.members)
  }

  function Max(a: nat, b: nat): nat {
    if a >= b then a else b
  }

  // --- the tree of a preorder sequence ---------------------------------------------------

  // The value whose preorder starts at `i`, under `depth` containers, and the index after it.
  function ValueAt(items: seq<Item>, i: nat, depth: nat): (r: Result<(Value, nat), DataError>)
    requires depth <= MAX_DEPTH
    ensures r.Ok? ==> i < r.value.1 <= |items|
    decreases MAX_DEPTH - depth + 1, 0
  {
    if i >= |items| then Err(MissingMembers)
    else
      match items[i]
      case One(l) => if AcceptedLeaf(l) then Ok((Single(l), i + 1)) else Err(UnusedBits)
      case StructureOf(n) =>
        if depth >= MAX_DEPTH then Err(TooDeep) else
        (match MembersAt(items, i + 1, n, depth + 1)
         case Err(e) => Err(e)
         case Ok((members, next)) => Ok((Structure(members), next)))
      case ArrayOf(n) =>
        if depth >= MAX_DEPTH then Err(TooDeep) else
        (match MembersAt(items, i + 1, n, depth + 1)
         case Err(e) => Err(e)
         case Ok((members, next)) => Ok((Array(members), next)))
  }

  // The `n` values whose preorders start at `i`.
  function MembersAt(items: seq<Item>, i: nat, n: nat, depth: nat): (r: Result<(seq<Value>, nat), DataError>)
    requires depth <= MAX_DEPTH && i <= |items|
    ensures r.Ok? ==> i <= r.value.1 <= |items| && |r.value.0| == n
    decreases MAX_DEPTH - depth + 1, n + 1
  {
    if n == 0 then Ok(([], i))
    else
      match ValueAt(items, i, depth)
      case Err(e) => Err(e)
      case Ok((v, next)) =>
        match MembersAt(items, next, n - 1, depth)
        case Err(e) => Err(e)
        case Ok((rest, after)) => Ok(([v] + rest, after))
  }

  // Every top-level value from `i` on.
  function ForestAt(items: seq<Item>, i: nat): Result<seq<Value>, DataError>
    requires i <= |items|
    decreases |items| - i
  {
    if i == |items| then Ok([])
    else
      match ValueAt(items, i, 0)
      case Err(e) => Err(e)
      case Ok((v, next)) =>
        match ForestAt(items, next)
        case Err(e) => Err(e)
        case Ok(rest) => Ok([v] + rest)
  }

  function Forest(items: seq<Item>): Result<seq<Value>, DataError> {
    ForestAt(items, 0)
  }

  // An accepted sequence is the preorder of its tree, which nests at most MAX_DEPTH deep.
  lemma {:induction false} ForestIsPreorder(items: seq<Item>, i: nat)
    requires i <= |items| && ForestAt(items, i).Ok?
    ensures Preorder(ForestAt(items, i).value) == items[i..]
    ensures Depth(ForestAt(items, i).value) <= MAX_DEPTH
    ensures AllLeaves(ForestAt(items, i).value, AcceptedLeaf)
    decreases |items| - i
  {
    if i < |items| {
      var (v, next) := ValueAt(items, i, 0).value;
      ValueIsPreorder(items, i, 0);
      ForestIsPreorder(items, next);
      assert items[i..] == items[i..next] + items[next..];
    }
  }

  lemma {:induction false} ValueIsPreorder(items: seq<Item>, i: nat, depth: nat)
    requires depth <= MAX_DEPTH && ValueAt(items, i, depth).Ok?
    ensures var (v, next) := ValueAt(items, i, depth).value;
            && Flatten(v) == items[i..next]
            && depth + DepthOf(v) <= MAX_DEPTH
            && LeavesOf(v, AcceptedLeaf)
    decreases MAX_DEPTH - depth + 1, 0
  {
    if !items[i].One? {
      MembersArePreorder(items, i + 1, items[i].n, depth + 1);
      var next := ValueAt(items, i, depth).value.1;
      assert items[i..next] == [items[i]] + items[i + 1..next];
    }
  }

  lemma {:induction false} MembersArePreorder(items: seq<Item>, i: nat, n: nat, depth: nat)
    requires depth <= MAX_DEPTH && i <= |items| && MembersAt(items, i, n, depth).Ok?
    ensures var (vs, next) := MembersAt(items, i, n, depth).value;
            && Preorder(vs) == items[i..next]
            && depth + Depth(vs) <= MAX_DEPTH
            && AllLeaves(vs, AcceptedLeaf)
    decreases MAX_DEPTH - depth + 1, n + 1
  {
    if n > 0 {
      ValueIsPreorder(items, i, depth);
      var next := ValueAt(items, i, depth).value.1;
      MembersArePreorder(items, next, n - 1, depth);
      var after := MembersAt(items, i, n, depth).value.1;
      assert items[i..after] == items[i..next] + items[next..after];
    }
  }

  // Every tree nested at most MAX_DEPTH deep, with at most 7 unused bits a bit string, is
  // the tree of its preorder: nothing but depth and unused bits is refused.
  lemma {:induction false} PreorderIsAccepted(vs: seq<Value>, prefix: seq<Item>)
    requires Depth(vs) <= MAX_DEPTH && AllLeaves(vs, AcceptedLeaf)
    ensures ForestAt(prefix + Preorder(vs), |prefix|) == Ok(vs)
    decreases vs
  {
    if vs != [] {
      var items := prefix + Preorder(vs);
      var first := Flatten(vs[0]);
      assert items == prefix + first + Preorder(vs[1..]);
      FlattenIsAccepted(vs[0], prefix, Preorder(vs[1..]), 0);
      PreorderIsAccepted(vs[1..], prefix + first);
      assert vs == [vs[0]] + vs[1..];
    } else {
      assert prefix + Preorder(vs) == prefix;
    }
  }

  lemma {:induction false} FlattenIsAccepted(v: Value, prefix: seq<Item>, rest: seq<Item>, depth: nat)
    requires depth + DepthOf(v) <= MAX_DEPTH && LeavesOf(v, AcceptedLeaf)
    ensures ValueAt(prefix + Flatten(v) + rest, |prefix|, depth) == Ok((v, |prefix + Flatten(v)|))
    decreases v, 1
  {
    if !v.Single? {
      var items := prefix + Flatten(v) + rest;
      var head := [Flatten(v)[0]];
      assert items == (prefix + head) + Preorder(v.members) + rest;
      assert items[|prefix|] == Flatten(v)[0];
      MembersAreAccepted(v.members, prefix + head, rest, depth + 1);
    }
  }

  lemma {:induction false} MembersAreAccepted(vs: seq<Value>, prefix: seq<Item>, rest: seq<Item>, depth: nat)
    requires depth + Depth(vs) <= MAX_DEPTH && AllLeaves(vs, AcceptedLeaf)
    ensures MembersAt(prefix + Preorder(vs) + rest, |prefix|, |vs|, depth) == Ok((vs, |prefix + Preorder(vs)|))
    decreases vs, 0
  {
    if vs != [] {
      var items := prefix + Preorder(vs) + rest;
      var first := Flatten(vs[0]);
      assert items == prefix + first + (Preorder(vs[1..]) + rest);
      FlattenIsAccepted(vs[0], prefix, Preorder(vs[1..]) + rest, depth);
      assert items == (prefix + first) + Preorder(vs[1..]) + rest;
      MembersAreAccepted(vs[1..], prefix + first, rest, depth);
      assert vs == [vs[0]] + vs[1..];
      assert (prefix + first) + Preorder(vs[1..]) == prefix + Preorder(vs);
    } else {
      assert prefix + Preorder(vs) == prefix;
    }
  }

  // --- the fault met first ---------------------------------------------------------------

  // Without the containers whose members have all come.
  function Pending(open: seq<nat>): seq<nat> {
    if open != [] && open[|open| - 1] == 0 then Pending(open[..|open| - 1]) else open
  }

  // One member of the innermost container has come.
  function Counted(open: seq<nat>): seq<nat> {
    if open == [] || open[|open| - 1] == 0 then open else open[..|open| - 1] + [open[|open| - 1] - 1]
  }

  // What a pass from left to right meets first, knowing only how many members each open
  // container still expects: a bit string with more than 7 unused bits, a container within 32
  // others, or the end while members are missing.
  function FirstFault(items: seq<Item>, open: seq<nat>): Option<DataError> {
    if items == [] then (if open == [] then None else Some(MissingMembers))
    else
      match items[0]
      case One(l) =>
        if l.BitString? && l.unused > 7 then Some(UnusedBits) else FirstFault(items[1..], Pending(Counted(open)))
      case StructureOf(n) =>
        if |open| >= 32 then Some(TooDeep) else FirstFault(items[1..], Pending(Counted(open) + [n]))
      case ArrayOf(n) =>
        if |open| >= 32 then Some(TooDeep) else FirstFault(items[1..], Pending(Counted(open) + [n]))
  }

  // The recursive reading reports that very fault, and accepts when there is none.
  lemma {:induction false} FaultIsFirst(items: seq<Item>, i: nat)
    requires i <= |items|
    ensures FirstFault(items[i..], []) == match ForestAt(items, i) case Ok(_) => None case Err(e) => Some(e)
    decreases |items| - i
  {
    if i < |items| {
      ValueFault(items, i, 0, []);
      if ValueAt(items, i, 0).Ok? {
        FaultIsFirst(items, ValueAt(items, i, 0).value.1);
      }
    }
  }

  lemma {:induction false} ValueFault(items: seq<Item>, i: nat, depth: nat, open: seq<nat>)
    requires i <= |items| && depth == |open| <= MAX_DEPTH && (i < |items| || open != [])
    ensures FirstFault(items[i..], open)
            == match ValueAt(items, i, depth)
               case Err(e) => Some(e)
               case Ok((_, next)) => FirstFault(items[next..], Pending(Counted(open)))
    decreases MAX_DEPTH - depth + 1, 0
  {
    if i < |items| {
      assert items[i..][1..] == items[i + 1..];
      if !items[i].One? && depth < MAX_DEPTH {
        MembersFault(items, i + 1, items[i].n, depth + 1, Counted(open));
      }
    }
  }

  lemma OneMoreOpen(open: seq<nat>, n: nat)
    ensures Pending(open + [n]) == if n == 0 then Pending(open) else open + [n]
    ensures n > 0 ==> Counted(open + [n]) == open + [n - 1]
  {
    assert (open + [n])[..|open|] == open;
  }

  lemma {:induction false} MembersFault(items: seq<Item>, i: nat, n: nat, depth: nat, open: seq<nat>)
    requires i <= |items| && depth == |open| + 1 <= MAX_DEPTH
    ensures FirstFault(items[i..], Pending(open + [n]))
            == match MembersAt(items, i, n, depth)
               case Err(e) => Some(e)
               case Ok((_, next)) => FirstFault(items[next..], Pending(open))
    decreases MAX_DEPTH - depth + 1, n + 1
  {
    hide Pending, Counted, FirstFault, ValueAt;
    OneMoreOpen(open, n);
    if n > 0 {
      ValueFault(items, i, depth, open + [n]);
      if ValueAt(items, i, depth).Ok? {
        MembersFault(items, ValueAt(items, i, depth).value.1, n - 1, depth, open);
      }
    }
  }

  // A value accepted under some containers is the same under fewer.
  lemma {:induction false} Shallower(items: seq<Item>, i: nat, depth: nat)
    requires depth <= MAX_DEPTH && ValueAt(items, i, depth).Ok?
    ensures ValueAt(items, i, 0) == ValueAt(items, i, depth)
  {
    var (v, next) := ValueAt(items, i, depth).value;
    ValueIsPreorder(items, i, depth);
    FlattenIsAccepted(v, items[..i], items[next..], 0);
    assert items == items[..i] + Flatten(v) + items[next..];
  }

  // --- measuring and writing -------------------------------------------------------------

  predicate InI64(v: int) {
    -TWO_63 <= v < TWO_63
  }

  // What the native types hold: 64-bit integers and 32-bit raw tags.
  predicate NativeItem(item: Item) {
    item.One? ==>
      && (item.leaf.Int? ==> InI64(item.leaf.value))
      && (item.leaf.UInt? ==> item.leaf.magnitude < TWO_64)
      && (item.leaf.Raw? ==> item.leaf.tag < TWO_32)
  }

  predicate TypedItems(items: seq<Item>) {
    forall k :: 0 <= k < |items| ==> NativeItem(items[k])
  }

  // The content octets of a value without members, its integers taken from 64-bit forms.
  function NativeContent(l: Leaf): (s: Bytes)
    requires NativeItem(One(l))
    ensures s == LeafContent(l)
  {
    match l
    case Int(v) => NativeSignedIsMinimal(v); NativeSignedOctets(v)
    case UInt(v) => NativeUnsignedIsMinimal(v); NativeUnsignedOctets(v)
    case _ => LeafContent(l)
  }

  function ItemTag(item: Item): nat {
    match item
    case One(l) => LeafTag(l)
    case StructureOf(_) => TAG_STRUCTURE
    case ArrayOf(_) => TAG_ARRAY
  }

  // Tag and content length of the value at `i`, and the index after its members.
  method Measure(items: seq<Item>, i: nat, depth: nat) returns (r: Result<(nat, nat, nat), DataError>)
    requires depth <= MAX_DEPTH && TypedItems(items)
    ensures match ValueAt(items, i, depth)
            case Err(e) => r == Err(e)
            case Ok((v, next)) => r == Ok((Tag(v), |Content(v)|, next))
    decreases MAX_DEPTH - depth
  {
    hide EncodeSequence, LeafContent, AcceptedLeaf, MembersAt;
    if i >= |items| {
      return Err(MissingMembers);
    }
    var item := items[i];
    if item.One? {
      return if AcceptedLeaf(item.leaf) then Ok((LeafTag(item.leaf), |NativeContent(item.leaf)|, i + 1))
             else Err(UnusedBits);
    }
    if depth >= MAX_DEPTH {
      return Err(TooDeep);
    }
    var m := MeasureMembers(items, i + 1, item.n, depth + 1);
    return if m.Err? then Err(m.error) else Ok((ItemTag(item), m.value.0, m.value.1));
  }

  // The loop of `measure` over the members of a container.
  method MeasureMembers(items: seq<Item>, start: nat, n: nat, depth: nat) returns (r: Result<(nat, nat), DataError>)
    requires depth <= MAX_DEPTH && TypedItems(items) && start <= |items|
    ensures match MembersAt(items, start, n, depth)
            case Err(e) => r == Err(e)
            case Ok((members, next)) => r == Ok((|EncodeSequence(members)|, next))
    decreases MAX_DEPTH - depth + 1, 1
  {
    var content, next := 0, start;
    ghost var done: seq<Value> := [];
    GrownStart(items, start, n, depth);
    for k := 0 to n
      invariant start <= next <= |items|
      invariant content == |EncodeSequence(done)|
      invariant Grown(items, start, n, depth, done, next, k)
    {
      var m := Measure(items, next, depth);
      if m.Err? {
        return Err(m.error);
      }
      content := content + MeasuredTlv(items, next, depth, done, m.value.0, m.value.1);
      GrownStep(items, start, n, depth, done, next, k);
      done := done + [ValueAt(items, next, depth).value.0];
      next := m.value.2;
    }
    assert done + [] == done;
    return Ok((content, next));
  }

  // The TLV of a measured value, as long as what it adds to the values before it.
  function MeasuredTlv(items: seq<Item>, i: nat, depth: nat, ghost done: seq<Value>, tag: nat, len: nat): (size: nat)
    requires depth <= MAX_DEPTH && TypedItems(items) && ValueAt(items, i, depth).Ok?
    requires var v := ValueAt(items, i, depth).value.0; tag == Tag(v) && len == |Content(v)|
    ensures var v := ValueAt(items, i, depth).value.0;
            |EncodeSequence(done)| + size == |EncodeSequence(done + [v])|
  {
    RawTagsAreNarrow(items, i, depth);
    TlvLenIsExact(tag, Content(ValueAt(items, i, depth).value.0));
    EncodeSnoc(done, ValueAt(items, i, depth).value.0);
    TlvLen(tag, len)
  }

  // `done` are the first `k` of the `n` members that start at `start`; the others start at `next`.
  ghost predicate Grown(items: seq<Item>, start: nat, n: nat, depth: nat, done: seq<Value>, next: nat, k: nat)
    requires start <= |items| && next <= |items| && depth <= MAX_DEPTH && k <= n
  {
    MembersAt(items, start, n, depth) ==
    match MembersAt(items, next, n - k, depth)
    case Err(e) => Err(e)
    case Ok((rest, after)) => Ok((done + rest, after))
  }

  lemma GrownStart(items: seq<Item>, start: nat, n: nat, depth: nat)
    requires start <= |items| && depth <= MAX_DEPTH
    ensures Grown(items, start, n, depth, [], start, 0)
  {
    var all := MembersAt(items, start, n, depth);
    if all.Ok? {
      assert [] + all.value.0 == all.value.0;
    }
  }

  lemma GrownStep(items: seq<Item>, start: nat, n: nat, depth: nat, done: seq<Value>, next: nat, k: nat)
    requires start <= |items| && next <= |items| && depth <= MAX_DEPTH && k < n
    requires Grown(items, start, n, depth, done, next, k)
    requires ValueAt(items, next, depth).Ok?
    ensures var (v, after) := ValueAt(items, next, depth).value;
            Grown(items, start, n, depth, done + [v], after, k + 1)
  {
    var (v, after) := ValueAt(items, next, depth).value;
    var tail := MembersAt(items, after, n - k - 1, depth);
    if tail.Ok? {
      assert done + ([v] + tail.value.0) == (done + [v]) + tail.value.0;
    }
  }

  lemma RawTagsAreNarrow(items: seq<Item>, i: nat, depth: nat)
    requires depth <= MAX_DEPTH && TypedItems(items) && ValueAt(items, i, depth).Ok?
    ensures Tag(ValueAt(items, i, depth).value.0) == ItemTag(items[i]) < TWO_32
  {
  }

  // Encoded length of a whole sequence: exactly what WriteSequence writes.
  method SequenceLen(items: seq<Item>) returns (r: Result<nat, DataError>)
    requires TypedItems(items)
    ensures match Forest(items)
            case Err(e) => r == Err(e)
            case Ok(vs) => r == Ok(|EncodeSequence(vs)|)
  {
    var total, i := 0, 0;
    ghost var done: seq<Value> := [];
    ForestGrownStart(items);
    while i < |items|
      invariant i <= |items|
      invariant total == |EncodeSequence(done)|
      invariant ForestGrown(items, done, i)
      decreases |items| - i
    {
      var m := Measure(items, i, 0);
      if m.Err? {
        return Err(m.error);
      }
      total := total + MeasuredTlv(items, i, 0, done, m.value.0, m.value.1);
      ForestGrownStep(items, done, i);
      done := done + [ValueAt(items, i, 0).value.0];
      i := m.value.2;
    }
    assert done + [] == done;
    return Ok(total);
  }

  ghost predicate ForestGrown(items: seq<Item>, done: seq<Value>, next: nat)
    requires next <= |items|
  {
    Forest(items) ==
    match ForestAt(items, next)
    case Err(e) => Err(e)
    case Ok(rest) => Ok(done + rest)
  }

  lemma ForestGrownStart(items: seq<Item>)
    ensures ForestGrown(items, [], 0)
  {
    if Forest(items).Ok? {
      assert [] + Forest(items).value == Forest(items).value;
    }
  }

  lemma ForestGrownStep(items: seq<Item>, done: seq<Value>, next: nat)
    requires next < |items| && ForestGrown(items, done, next) && ValueAt(items, next, 0).Ok?
    ensures var (v, after) := ValueAt(items, next, 0).value;
            ForestGrown(items, done + [v], after)
  {
    var (v, after) := ValueAt(items, next, 0).value;
    var tail := ForestAt(items, after);
    if tail.Ok? {
      assert done + ([v] + tail.value) == (done + [v]) + tail.value;
    }
  }

  // Writes the value at `i` and its members; BufferFull exactly when they do not fit.
  method WriteOne(items: seq<Item>, i: nat, w: Writer) returns (r: Result<nat, DataError>)
    requires TypedItems(items) && w.Valid()
    modifies w, w.buf
    ensures w.Valid()
    ensures match ValueAt(items, i, 0)
            case Err(e) => r == Err(e) && w.pos == old(w.pos) && w.buf[..] == old(w.buf[..])
            case Ok((v, next)) =>
              if old(w.pos) + |EncodeData(v)| > w.buf.Length then r == Err(BufferFull)
              else r == Ok(next) && Extends(old(w.buf[..]), old(w.pos), w.buf[..], w.pos, EncodeData(v))
    decreases |items| - i, 0
  {
    if i >= |items| {
      return Err(MissingMembers);
    }
    var item := items[i];
    var m := Measure(items, i, 0);
    if m.Err? {
      return Err(m.error);
    }
    RawTagsAreNarrow(items, i, 0);
    ghost var v := ValueAt(items, i, 0).value.0;
    var ok := w.PutHeader(m.value.0, m.value.1);
    if !ok {
      return Err(BufferFull);
    }
    ghost var b1, p1 := w.buf[..], w.pos;
    ghost var header := EncodeTag(Tag(v)) + EncodeLength(|Content(v)|);
    if item.One? {
      ok := w.Put(NativeContent(item.leaf));
      if !ok {
        return Err(BufferFull);
      }
    } else {
      ok := WriteMembers(items, i + 1, item.n, 1, w);
      if !ok {
        return Err(BufferFull);
      }
    }
    ExtendsTwice(old(w.buf[..]), old(w.pos), b1, p1, w.buf[..], w.pos, header, Content(v));
    return Ok(m.value.2);
  }

  // The loop of `write_one` over the members of a container already measured.
  method WriteMembers(items: seq<Item>, start: nat, n: nat, ghost depth: nat, w: Writer) returns (ok: bool)
    requires TypedItems(items) && w.Valid() && start <= |items| && depth <= MAX_DEPTH
    requires MembersAt(items, start, n, depth).Ok?
    modifies w, w.buf
    ensures w.Valid()
    ensures var octets := EncodeSequence(MembersAt(items, start, n, depth).value.0);
            && ok == (old(w.pos) + |octets| <= w.buf.Length)
            && (ok ==> Extends(old(w.buf[..]), old(w.pos), w.buf[..], w.pos, octets))
    decreases |items| - start, 1
  {
    var member := start;
    ghost var all := MembersAt(items, start, n, depth).value.0;
    ghost var done: seq<Value> := [];
    GrownStart(items, start, n, depth);
    for k := 0 to n
      invariant w.Valid() && start <= member <= |items|
      invariant Grown(items, start, n, depth, done, member, k)
      invariant Extends(old(w.buf[..]), old(w.pos), w.buf[..], w.pos, EncodeSequence(done))
    {
      ghost var v := NextMember(items, start, n, depth, done, member, k);
      ghost var b1, p1 := w.buf[..], w.pos;
      var r := WriteOne(items, member, w);
      if r.Err? {
        return false;
      }
      ExtendsTwice(old(w.buf[..]), old(w.pos), b1, p1, w.buf[..], w.pos, EncodeSequence(done), EncodeData(v));
      GrownStep(items, start, n, depth, done, member, k);
      member := r.value;
      done := done + [v];
    }
    assert done + [] == done;
    return true;
  }

  // The member at hand, read from the top (depth 0) as `write_one` does, and its place in
  // the octets of all the members.
  lemma NextMember(items: seq<Item>, start: nat, n: nat, depth: nat, done: seq<Value>, next: nat, k: nat)
    returns (v: Value)
    requires start <= |items| && next <= |items| && depth <= MAX_DEPTH && k < n
    requires MembersAt(items, start, n, depth).Ok? && Grown(items, start, n, depth, done, next, k)
    ensures ValueAt(items, next, depth).Ok? && ValueAt(items, next, 0) == ValueAt(items, next, depth)
    ensures v == ValueAt(items, next, depth).value.0
    ensures EncodeSequence(done + [v]) == EncodeSequence(done) + EncodeData(v)
    ensures |EncodeSequence(done)| + |EncodeData(v)| <= |EncodeSequence(MembersAt(items, start, n, depth).value.0)|
  {
    Shallower(items, next, depth);
    v := ValueAt(items, next, depth).value.0;
    EncodeSnoc(done, v);
    EncodeConcat(done, MembersAt(items, next, n - k, depth).value.0);
  }

  // The top-level values from `i` on that come before the first refused one.
  function AcceptedAt(items: seq<Item>, i: nat): seq<Value>
    requires i <= |items|
    decreases |items| - i
  {
    if i == |items| then []
    else
      match ValueAt(items, i, 0)
      case Err(_) => []
      case Ok((v, next)) => [v] + AcceptedAt(items, next)
  }

  lemma {:induction false} AcceptedIsForest(items: seq<Item>, i: nat)
    requires i <= |items|
    ensures ForestAt(items, i).Ok? ==> AcceptedAt(items, i) == ForestAt(items, i).value
    decreases |items| - i
  {
    if i < |items| && ValueAt(items, i, 0).Ok? {
      AcceptedIsForest(items, ValueAt(items, i, 0).value.1);
    }
  }

  // `done` are the values before the one at `next`.
  ghost predicate WrittenSoFar(items: seq<Item>, done: seq<Value>, next: nat) {
    next <= |items| && ForestGrown(items, done, next) && AcceptedAt(items, 0) == done + AcceptedAt(items, next)
  }

  lemma WrittenStep(items: seq<Item>, done: seq<Value>, next: nat)
    requires next < |items| && WrittenSoFar(items, done, next)
    ensures var one := ValueAt(items, next, 0);
            if one.Err? then Forest(items) == Err(one.error) && AcceptedAt(items, 0) == done
            else
              var longer := done + [one.value.0];
              && WrittenSoFar(items, longer, one.value.1)
              && EncodeSequence(longer) == EncodeSequence(done) + EncodeData(one.value.0)
              && |EncodeSequence(longer)| <= |EncodeSequence(AcceptedAt(items, 0))|
  {
    hide EncodeData, EncodeSequence;
    if ValueAt(items, next, 0).Ok? {
      var (v, after) := ValueAt(items, next, 0).value;
      ForestGrownStep(items, done, next);
      EncodeSnoc(done, v);
      assert done + ([v] + AcceptedAt(items, after)) == (done + [v]) + AcceptedAt(items, after);
      EncodeConcat(done + [v], AcceptedAt(items, after));
    } else {
      assert done + [] == done;
    }
  }

  // Writes every top-level value: all the octets of those accepted, or BufferFull exactly when
  // they do not fit. A refused value ends it with its error, after those before it.
  method WriteSequence(items: seq<Item>, w: Writer) returns (r: Result<(), DataError>)
    requires TypedItems(items) && w.Valid()
    modifies w, w.buf
    ensures w.Valid()
    ensures var octets := EncodeSequence(AcceptedAt(items, 0));
            if old(w.pos) + |octets| > w.buf.Length then r == Err(BufferFull)
            else && r == (match Forest(items) case Ok(_) => Ok(()) case Err(e) => Err(e))
                 && Extends(old(w.buf[..]), old(w.pos), w.buf[..], w.pos, octets)
    ensures Forest(items).Ok? ==> AcceptedAt(items, 0) == Forest(items).value
  {
    var i := 0;
    ghost var done: seq<Value> := [];
    ForestGrownStart(items);
    AcceptedIsForest(items, 0);
    assert [] + AcceptedAt(items, 0) == AcceptedAt(items, 0);
    while i < |items|
      invariant w.Valid() && WrittenSoFar(items, done, i)
      invariant Extends(old(w.buf[..]), old(w.pos), w.buf[..], w.pos, EncodeSequence(done))
      decreases |items| - i
    {
      ghost var b1, p1 := w.buf[..], w.pos;
      WrittenStep(items, done, i);
      var one := WriteOne(items, i, w);
      if one.Err? {
        return Err(one.error);
      }
      ghost var v := ValueAt(items, i, 0).value.0;
      ExtendsTwice(old(w.buf[..]), old(w.pos), b1, p1, w.buf[..], w.pos, EncodeSequence(done), EncodeData(v));
      i := one.value;
      done := done + [v];
    }
    assert done + [] == done;
    return Ok(());
  }
}
