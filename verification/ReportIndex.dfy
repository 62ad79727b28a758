/**
 The change index of `server/reporting.py`: what a change of the model reaches is looked up,
 for a leaf and each object above it, in a dictionary of data set members that is made again
 once a client writes a DatSet. It finds what a loop over every member of every block finds.
 */
module ReportIndex {
  import opened Octets
  import opened ReportWire

  // --- paths -------------------------------------------------------------------------------

  // `item.split("$")`.
  function Split(s: string): (r: seq<string>)
    ensures r != []
  {
    if s == "" then [""]
    else
      var rest := Split(s[1..]);
      if s[0] == '$' then [""] + rest else [[s[0]] + rest[0]] + rest[1..]
  }

  // `"$".join(parts)`.
  function Join(parts: seq<string>): string {
    if parts == [] then "" else if |parts| == 1 then parts[0] else parts[0] + "$" + Join(parts[1..])
  }

  // the object itself, or one above it.
  predicate AtOrAbove(path: string, item: string) {
    item == path || (|path| < |item| && item[..|path|] == path && item[|path|] == '$')
  }

  lemma {:induction false} JoinPutsChar(c: char, parts: seq<string>)
    requires parts != []
    ensures Join([[c] + parts[0]] + parts[1..]) == [c] + Join(parts)
  {
    var longer := [[c] + parts[0]] + parts[1..];
    if |parts| > 1 {
      assert longer[1..] == parts[1..];
      assert ([c] + parts[0]) + "$" + Join(parts[1..]) == [c] + (parts[0] + "$" + Join(parts[1..]));
    }
  }

  lemma JoinPutsSeparator(parts: seq<string>)
    requires parts != []
    ensures Join([""] + parts) == "$" + Join(parts)
  {
    assert ([""] + parts)[1..] == parts;
    assert "" + "$" + Join(parts) == "$" + Join(parts);
  }

  lemma {:induction false} JoinSplit(s: string)
    ensures Join(Split(s)) == s
  {
    if s != "" {
      JoinSplit(s[1..]);
      assert s == [s[0]] + s[1..];
      if s[0] == '$' {
        JoinPutsSeparator(Split(s[1..]));
      } else {
        JoinPutsChar(s[0], Split(s[1..]));
      }
    }
  }

  // The parts of an path above are the first parts of the item.
  lemma {:induction false} SplitAbove(path: string, item: string)
    requires AtOrAbove(path, item)
    ensures |Split(path)| <= |Split(item)| && Split(item)[..|Split(path)|] == Split(path)
    decreases |item|
  {
    if item == path {
      assert Split(item)[..|Split(item)|] == Split(item);
    } else if path == "" {
      assert item[0] == '$';
    } else {
      assert item[0] == path[0];
      assert item[1..][..|path| - 1] == path[1..] && item[1..][|path| - 1] == '$';
      SplitAbove(path[1..], item[1..]);
    }
  }

  lemma {:induction false} JoinedIsAbove(item: string, n: nat)
    requires 1 <= n <= |Split(item)|
    ensures AtOrAbove(Join(Split(item)[..n]), item)
    decreases |item|
  {
    var parts := Split(item);
    if item == "" {
      assert parts[..n] == [""];
    } else {
      var rest := Split(item[1..]);
      if item[0] == '$' {
        if n == 1 {
          assert parts[..1] == [""];
        } else {
          JoinedIsAbove(item[1..], n - 1);
          assert parts[..n] == [""] + rest[..n - 1];
          JoinPutsSeparator(rest[..n - 1]);
          Prepended(item, Join(rest[..n - 1]));
        }
      } else {
        JoinedIsAbove(item[1..], n);
        assert parts[..n] == [[item[0]] + rest[..n][0]] + rest[..n][1..];
        JoinPutsChar(item[0], rest[..n]);
        Prepended(item, Join(rest[..n]));
      }
    }
  }

  lemma Prepended(item: string, path: string)
    requires item != "" && AtOrAbove(path, item[1..])
    ensures AtOrAbove([item[0]] + path, item)
  {
    assert item == [item[0]] + item[1..];
    if item[1..] != path {
      assert item[..|path| + 1] == [item[0]] + item[1..][..|path|];
    }
  }

  // The objects looked up for a leaf, each a run of its first parts, are exactly the leaf and
  // those above it.
  lemma LookedUp(path: string, item: string)
    ensures AtOrAbove(path, item) <==> exists n :: 1 <= n <= |Split(item)| && Join(Split(item)[..n]) == path
  {
    if AtOrAbove(path, item) {
      SplitAbove(path, item);
      JoinSplit(path);
      assert Join(Split(item)[..|Split(path)|]) == path;
    }
    if n :| 1 <= n <= |Split(item)| && Join(Split(item)[..n]) == path {
      JoinedIsAbove(item, n);
    }
  }

  // --- data sets ---------------------------------------------------------------------------

  datatype Member = Member(domain: string, item: string)

  // A changed leaf: its place in the model and its trigger options.
  datatype Leaf = Leaf(domain: string, item: string, dchg: bool, qchg: bool, dupd: bool)

  // What a block wants: nothing while it neither is enabled nor buffers.
  datatype Wanted = Wanted(live: bool, dataChange: bool, qualityChange: bool, dataUpdate: bool)

  predicate CoversLeaf(m: Member, l: Leaf) {
    m.domain == l.domain && AtOrAbove(m.item, l.item)
  }

  const NO_REASON := Reason(false, false, false, false, false, false)

  function Merge(a: Reason, b: Reason): Reason {
    Reason(a.dataChange || b.dataChange, a.qualityChange || b.qualityChange, a.dataUpdate || b.dataUpdate,
           a.integrity || b.integrity, a.generalInterrogation || b.generalInterrogation,
           a.applicationTrigger || b.applicationTrigger)
  }

  function ReasonFor(w: Wanted, l: Leaf): Reason {
    if !w.live then NO_REASON
    else Reason(l.dchg && w.dataChange, l.qchg && w.qualityChange, l.dupd && w.dataUpdate, false, false, false)
  }

  // --- the simple scan ---------------------------------------------------------------------

  // Why a member of a block is reported: every changed leaf it covers, and all the reasons.
  function Scan(m: Member, w: Wanted, changed: seq<Leaf>): Reason {
    if changed == [] then NO_REASON
    else
      var last := changed[|changed| - 1];
      var before := Scan(m, w, changed[..|changed| - 1]);
      if CoversLeaf(m, last) then Merge(before, ReasonFor(w, last)) else before
  }

  // A member is reported for a change of data, of quality, or for an update, exactly when some
  // changed leaf it covers triggers that and the block wants it.
  lemma {:induction false} ScanSays(m: Member, w: Wanted, changed: seq<Leaf>)
    ensures var r := Scan(m, w, changed);
            && (r.dataChange <==> w.live && w.dataChange
                                  && exists k :: 0 <= k < |changed| && CoversLeaf(m, changed[k]) && changed[k].dchg)
            && (r.qualityChange <==> w.live && w.qualityChange
                                     && exists k :: 0 <= k < |changed| && CoversLeaf(m, changed[k]) && changed[k].qchg)
            && (r.dataUpdate <==> w.live && w.dataUpdate
                                  && exists k :: 0 <= k < |changed| && CoversLeaf(m, changed[k]) && changed[k].dupd)
            && !r.integrity && !r.generalInterrogation && !r.applicationTrigger
  {
    hide CoversLeaf;
    if changed != [] {
      var init := changed[..|changed| - 1];
      ScanSays(m, w, init);
      forall k | 0 <= k < |init|
        ensures init[k] == changed[k]
      {
      }
    }
  }

  // --- the index ---------------------------------------------------------------------------

  // A block and a place in its data set.
  type Place = (nat, nat)

  function PlacesOf(members: seq<Member>, block: nat, key: Member): seq<Place> {
    if members == [] then []
    else
      var n := |members| - 1;
      PlacesOf(members[..n], block, key) + (if members[n] == key then [(block, n)] else [])
  }

  // Where a member occurs, in the blocks' order.
  function PlacesIn(all: seq<seq<Member>>, key: Member): seq<Place> {
    if all == [] then [] else PlacesIn(all[..|all| - 1], key) + PlacesOf(all[|all| - 1], |all| - 1, key)
  }

  lemma {:induction false} PlacesOfIs(members: seq<Member>, block: nat, key: Member, at: Place)
    ensures at in PlacesOf(members, block, key) <==> at.0 == block && at.1 < |members| && members[at.1] == key
  {
    if members != [] {
      PlacesOfIs(members[..|members| - 1], block, key, at);
    }
  }

  lemma {:induction false} PlacesInIs(all: seq<seq<Member>>, key: Member, at: Place)
    ensures at in PlacesIn(all, key) <==> at.0 < |all| && at.1 < |all[at.0]| && all[at.0][at.1] == key
  {
    if all != [] {
      PlacesInIs(all[..|all| - 1], key, at);
      PlacesOfIs(all[|all| - 1], |all| - 1, key, at);
    }
  }

  // A place some of the lookups reach: those of more than `n` parts.
  ghost predicate Reached(all: seq<seq<Member>>, l: Leaf, at: Place, n: nat) {
    exists m :: n < m <= |Split(l.item)| && at in PlacesIn(all, Member(l.domain, Join(Split(l.item)[..m])))
  }

  // The lookups of a leaf reach a place exactly when the member there covers the leaf.
  lemma LookupsAreTheScan(all: seq<seq<Member>>, l: Leaf, at: Place)
    requires at.0 < |all| && at.1 < |all[at.0]|
    ensures CoversLeaf(all[at.0][at.1], l) <==> Reached(all, l, at, 0)
  {
    hide PlacesIn, Split, Join, AtOrAbove;
    var m := all[at.0][at.1];
    LookedUp(m.item, l.item);
    forall n | 0 < n <= |Split(l.item)|
      ensures at in PlacesIn(all, Member(l.domain, Join(Split(l.item)[..n])))
         <==> m == Member(l.domain, Join(Split(l.item)[..n]))
    {
      PlacesInIs(all, Member(l.domain, Join(Split(l.item)[..n])), at);
    }
  }

  type Found = map<nat, map<nat, Reason>>

  function At(found: Found, at: Place): Reason {
    if at.0 in found && at.1 in found[at.0] then found[at.0][at.1] else NO_REASON
  }

  // Only what has a reason is noted, and only blocks with something noted.
  ghost predicate OnlyReasons(found: Found) {
    && (forall b, p :: b in found && p in found[b] ==> found[b][p] != NO_REASON)
    && (forall b :: b in found ==> exists p :: p in found[b])
  }

  function Get(index: map<Member, seq<Place>>, key: Member): seq<Place> {
    if key in index then index[key] else []
  }

  // One more reason for a place.
  function Noted(found: Found, at: Place, reason: Reason): (r: Found)
    ensures At(r, at) == Merge(At(found, at), reason)
    ensures forall other: Place :: other != at ==> At(r, other) == At(found, other)
    ensures OnlyReasons(found) ==> OnlyReasons(r)
  {
    if reason == NO_REASON then found
    else
      var reasons := if at.0 in found then found[at.0] else map[];
      var merged := if at.1 in reasons then Merge(reasons[at.1], reason) else reason;
      found[at.0 := reasons[at.1 := merged]]
  }

  lemma MergeAgain(a: Reason, b: Reason)
    ensures Merge(Merge(a, b), b) == Merge(a, b) && Merge(a, NO_REASON) == a
  {
  }

  method NotePlaces(found: Found, places: seq<Place>, wanted: seq<Wanted>, l: Leaf) returns (r: Found)
    requires OnlyReasons(found) && forall i :: 0 <= i < |places| ==> places[i].0 < |wanted|
    ensures OnlyReasons(r)
    ensures forall at: Place :: at in places ==> At(r, at) == Merge(At(found, at), ReasonFor(wanted[at.0], l))
    ensures forall at: Place :: at !in places ==> At(r, at) == At(found, at)
  {
    r := found;
    for i := 0 to |places|
      invariant OnlyReasons(r)
      invariant forall at: Place :: at in places[..i] ==> At(r, at) == Merge(At(found, at), ReasonFor(wanted[at.0], l))
      invariant forall at: Place :: at !in places[..i] ==> At(r, at) == At(found, at)
    {
      r := Noted(r, places[i], ReasonFor(wanted[places[i].0], l));
      assert places[..i + 1] == places[..i] + [places[i]];
    }
    assert places[..|places|] == places;
  }

  function Why(wanted: seq<Wanted>, at: Place, l: Leaf): Reason {
    if at.0 < |wanted| then ReasonFor(wanted[at.0], l) else NO_REASON
  }

  lemma ReachedStep(all: seq<seq<Member>>, l: Leaf, at: Place, n: nat)
    requires 1 <= n <= |Split(l.item)|
    ensures Reached(all, l, at, n - 1)
       <==> Reached(all, l, at, n) || at in PlacesIn(all, Member(l.domain, Join(Split(l.item)[..n])))
  {
    hide Split, Join, PlacesIn;
  }

  lemma ReachedInTheEnd(all: seq<seq<Member>>, l: Leaf, at: Place)
    ensures Reached(all, l, at, 0) <==> at.0 < |all| && at.1 < |all[at.0]| && CoversLeaf(all[at.0][at.1], l)
  {
    hide Split, Join, PlacesIn, CoversLeaf;
    if at.0 < |all| && at.1 < |all[at.0]| {
      LookupsAreTheScan(all, l, at);
    } else if Reached(all, l, at, 0) {
      var m :| 0 < m <= |Split(l.item)| && at in PlacesIn(all, Member(l.domain, Join(Split(l.item)[..m])));
      PlacesInIs(all, Member(l.domain, Join(Split(l.item)[..m])), at);
    }
  }

  lemma InTheBlocks(all: seq<seq<Member>>, key: Member)
    ensures forall i :: 0 <= i < |PlacesIn(all, key)| ==> PlacesIn(all, key)[i].0 < |all|
  {
    forall i | 0 <= i < |PlacesIn(all, key)|
      ensures PlacesIn(all, key)[i].0 < |all|
    {
      PlacesInIs(all, key, PlacesIn(all, key)[i]);
    }
  }

  predicate Inside(all: seq<seq<Member>>, at: Place) {
    at.0 < |all| && at.1 < |all[at.0]|
  }

  ghost predicate IsIndex(index: map<Member, seq<Place>>, all: seq<seq<Member>>) {
    forall key :: Get(index, key) == PlacesIn(all, key)
  }

  // The index of the blocks before, and of the first members of one more.
  ghost predicate IsPartIndex(index: map<Member, seq<Place>>, before: seq<seq<Member>>, members: seq<Member>, b: nat) {
    forall key :: Get(index, key) == PlacesIn(before, key) + PlacesOf(members, b, key)
  }

  lemma OneMember(index: map<Member, seq<Place>>, before: seq<seq<Member>>, members: seq<Member>, b: nat, p: nat)
    requires p < |members| && IsPartIndex(index, before, members[..p], b)
    ensures IsPartIndex(index[members[p] := Get(index, members[p]) + [(b, p)]], before, members[..p + 1], b)
  {
    hide PlacesIn;
    var longer := index[members[p] := Get(index, members[p]) + [(b, p)]];
    assert members[..p + 1][..p] == members[..p];
    forall key
      ensures Get(longer, key) == PlacesIn(before, key) + PlacesOf(members[..p + 1], b, key)
    {
      if key == members[p] {
        assert (PlacesIn(before, key) + PlacesOf(members[..p], b, key)) + [(b, p)]
            == PlacesIn(before, key) + (PlacesOf(members[..p], b, key) + [(b, p)]);
      }
    }
  }

  lemma NoMember(index: map<Member, seq<Place>>, before: seq<seq<Member>>, b: nat)
    requires IsIndex(index, before)
    ensures IsPartIndex(index, before, [], b)
  {
    hide PlacesIn;
  }

  lemma OneBlock(index: map<Member, seq<Place>>, all: seq<seq<Member>>, b: nat)
    requires b < |all| && IsPartIndex(index, all[..b], all[b], b)
    ensures IsIndex(index, all[..b + 1])
  {
    hide PlacesOf;
    assert all[..b + 1][..b] == all[..b];
  }

  method AddBlock(made: map<Member, seq<Place>>, members: seq<Member>, b: nat, ghost before: seq<seq<Member>>)
    returns (r: map<Member, seq<Place>>)
    requires IsIndex(made, before)
    ensures IsPartIndex(r, before, members, b)
  {
    r := made;
    NoMember(r, before, b);
    assert members[..0] == [];
    for p := 0 to |members|
      invariant IsPartIndex(r, before, members[..p], b)
    {
      OneMember(r, before, members, b, p);
      r := r[members[p] := Get(r, members[p]) + [(b, p)]];
    }
    assert members[..|members|] == members;
  }

  // The dictionary of the members of every block, block after block.
  method MakeIndex(all: seq<seq<Member>>) returns (r: map<Member, seq<Place>>)
    ensures IsIndex(r, all)
  {
    r := map[];
    assert all[..0] == [];
    for b := 0 to |all|
      invariant IsIndex(r, all[..b])
    {
      r := AddBlock(r, all[b], b, all[..b]);
      OneBlock(r, all, b);
    }
    assert all[..|all|] == all;
  }

  // What a leaf reaches: the leaf itself, then each object above it.
  method NoteLeaf(found: Found, index: map<Member, seq<Place>>, ghost all: seq<seq<Member>>, wanted: seq<Wanted>, l: Leaf)
    returns (r: Found)
    requires OnlyReasons(found) && IsIndex(index, all) && |wanted| == |all|
    ensures OnlyReasons(r) && NotedFor(found, r, all, wanted, l, 0)
  {
    var parts := Split(l.item);
    r := found;
    var n: nat := |parts|;
    NotedNothing(found, all, wanted, l);
    while n > 0
      invariant n <= |parts| && OnlyReasons(r) && NotedFor(found, r, all, wanted, l, n)
    {
      var key := Member(l.domain, Join(parts[..n]));
      InTheBlocks(all, key);
      ghost var was := r;
      r := NotePlaces(r, Get(index, key), wanted, l);
      NotedStep(found, was, r, all, wanted, l, n);
      n := n - 1;
    }
  }

  // Everything that the lookups of more than `n` parts reach was noted, and nothing else.
  ghost predicate NotedFor(found: Found, r: Found, all: seq<seq<Member>>, wanted: seq<Wanted>, l: Leaf, n: nat) {
    forall at: Place ::
      At(r, at) == if Reached(all, l, at, n) then Merge(At(found, at), Why(wanted, at, l)) else At(found, at)
  }

  lemma NotedNothing(found: Found, all: seq<seq<Member>>, wanted: seq<Wanted>, l: Leaf)
    ensures NotedFor(found, found, all, wanted, l, |Split(l.item)|)
  {
    hide At, Merge, Why, PlacesIn, Split;
  }

  lemma NotedStep(found: Found, was: Found, r: Found, all: seq<seq<Member>>, wanted: seq<Wanted>, l: Leaf, n: nat)
    requires 1 <= n <= |Split(l.item)| && |wanted| == |all| && NotedFor(found, was, all, wanted, l, n)
    requires var places := PlacesIn(all, Member(l.domain, Join(Split(l.item)[..n])));
             && (forall i :: 0 <= i < |places| ==> places[i].0 < |wanted|)
             && (forall at: Place :: at in places ==> At(r, at) == Merge(At(was, at), ReasonFor(wanted[at.0], l)))
             && (forall at: Place :: at !in places ==> At(r, at) == At(was, at))
    ensures NotedFor(found, r, all, wanted, l, n - 1)
  {
    hide At, Merge, ReasonFor, PlacesIn, Split, Join, Reached;
    forall at: Place
      ensures At(r, at) == if Reached(all, l, at, n - 1) then Merge(At(found, at), Why(wanted, at, l)) else At(found, at)
    {
      MergeAgain(At(found, at), Why(wanted, at, l));
      ReachedStep(all, l, at, n);
    }
  }

  // What is found after some of the changed leaves is what the scan finds.
  ghost predicate Scanned(found: Found, all: seq<seq<Member>>, wanted: seq<Wanted>, changed: seq<Leaf>)
    requires |wanted| == |all|
  {
    && (forall at: Place :: Inside(all, at) ==> At(found, at) == Scan(all[at.0][at.1], wanted[at.0], changed))
    && (forall at: Place :: !Inside(all, at) ==> At(found, at) == NO_REASON)
  }

  // A leaf noted is a leaf scanned.
  lemma ScannedLeaf(was: Found, found: Found, all: seq<seq<Member>>, wanted: seq<Wanted>, changed: seq<Leaf>, k: nat)
    requires |wanted| == |all| && k < |changed| && Scanned(was, all, wanted, changed[..k])
    requires NotedFor(was, found, all, wanted, changed[k], 0)
    ensures Scanned(found, all, wanted, changed[..k + 1])
  {
    hide CoversLeaf, Merge, ReasonFor, At, Reached;
    var l := changed[k];
    assert changed[..k + 1][..k] == changed[..k];
    forall at: Place
      ensures At(found, at) == if Inside(all, at) && CoversLeaf(all[at.0][at.1], l)
                               then Merge(At(was, at), ReasonFor(wanted[at.0], l)) else At(was, at)
    {
      ReachedInTheEnd(all, l, at);
    }
  }

  // A leaf without trigger options gives no reason.
  lemma ScannedNothing(found: Found, all: seq<seq<Member>>, wanted: seq<Wanted>, changed: seq<Leaf>, k: nat)
    requires |wanted| == |all| && k < |changed| && Scanned(found, all, wanted, changed[..k])
    requires !changed[k].dchg && !changed[k].qchg && !changed[k].dupd
    ensures Scanned(found, all, wanted, changed[..k + 1])
  {
    hide CoversLeaf;
    assert changed[..k + 1][..k] == changed[..k];
    forall at: Place | Inside(all, at)
      ensures Scan(all[at.0][at.1], wanted[at.0], changed[..k + 1]) == Scan(all[at.0][at.1], wanted[at.0], changed[..k])
    {
      MergeAgain(Scan(all[at.0][at.1], wanted[at.0], changed[..k]), NO_REASON);
    }
  }

  method NoteLeaves(changed: seq<Leaf>, index: map<Member, seq<Place>>, ghost all: seq<seq<Member>>, wanted: seq<Wanted>)
    returns (found: Found)
    requires IsIndex(index, all) && |wanted| == |all|
    ensures OnlyReasons(found) && Scanned(found, all, wanted, changed)
  {
    found := map[];
    for k := 0 to |changed|
      invariant OnlyReasons(found) && Scanned(found, all, wanted, changed[..k])
    {
      if changed[k].dchg || changed[k].qchg || changed[k].dupd {
        ghost var was := found;
        found := NoteLeaf(found, index, all, wanted, changed[k]);
        ScannedLeaf(was, found, all, wanted, changed, k);
      } else {
        ScannedNothing(found, all, wanted, changed, k);
      }
    }
    assert changed[..|changed|] == changed;
  }

  function MembersOf(dataSets: map<string, seq<Member>>, names: seq<string>): (r: seq<seq<Member>>)
    ensures |r| == |names|
  {
    seq(|names|, b requires 0 <= b < |names| => if names[b] in dataSets then dataSets[names[b]] else [])
  }

  /** The blocks of a server with the data sets of its model, and the index. */
  class ChangeIndex {
    const dataSets: map<string, seq<Member>>
    var datSets: seq<string>  // each block's DatSet attribute
    var index: Option<map<Member, seq<Place>>>

    // The members of every block's data set, none when there is no such data set.
    function All(): (r: seq<seq<Member>>)
      reads this
      ensures |r| == |datSets|
    {
      MembersOf(dataSets, datSets)
    }

    // An index that is kept is the one that would be made now.
    ghost predicate Valid()
      reads this
    {
      index.Some? ==> IsIndex(index.value, All())
    }

    constructor (sets: map<string, seq<Member>>, names: seq<string>)
      ensures Valid() && dataSets == sets && datSets == names
    {
      dataSets := sets;
      datSets := names;
      index := None;
    }

    // A DatSet written by a client, or by the server itself.
    method WriteDatSet(block: nat, name: string)
      requires Valid() && block < |datSets|
      modifies this
      ensures Valid() && datSets == old(datSets)[block := name]
    {
      datSets := datSets[block := name];
      index := None;
    }

    // `_members`.
    method Members() returns (r: map<Member, seq<Place>>)
      requires Valid()
      modifies this`index
      ensures Valid() && IsIndex(r, All())
    {
      if index.None? {
        var made := MakeIndex(All());
        index := Some(made);
      }
      return index.value;
    }

    // `_on_change`: the blocks a change reaches, each with the reasons of its members; then
    // the blocks are served in their order. The index finds what the simple scan finds.
    method OnChange(changed: seq<Leaf>, wanted: seq<Wanted>) returns (found: Found, served: seq<nat>)
      requires Valid() && |wanted| == |datSets|
      modifies this`index
      ensures Valid()
      ensures OnlyReasons(found) && Scanned(found, All(), wanted, changed)
      ensures served == Blocks(found, |datSets|)
    {
      var places := Members();
      found := NoteLeaves(changed, places, All(), wanted);
      served := [];
      for b := 0 to |datSets|
        invariant served == Blocks(found, b)
      {
        if b in found {
          served := served + [b];
        }
      }
    }
  }

  // The blocks served are those with a member to report, in their order, each once.
  lemma {:induction false} ServedSays(found: Found, n: nat)
    ensures var served := Blocks(found, n);
            && (forall i, j :: 0 <= i < j < |served| ==> served[i] < served[j])
            && (forall b: nat :: b in served <==> b < n && b in found)
  {
    if n > 0 {
      ServedSays(found, n - 1);
      var before := Blocks(found, n - 1);
      assert forall i :: 0 <= i < |before| ==> before[i] in before;
    }
  }

  lemma ServedIsScanned(found: Found, all: seq<seq<Member>>, wanted: seq<Wanted>, changed: seq<Leaf>, b: nat)
    requires |wanted| == |all| && OnlyReasons(found) && Scanned(found, all, wanted, changed) && b < |all|
    ensures b in Blocks(found, |all|) <==> exists p :: 0 <= p < |all[b]| && Scan(all[b][p], wanted[b], changed) != NO_REASON
  {
    hide Scan;
    ServedSays(found, |all|);
    if b in found {
      var p :| p in found[b];
      assert At(found, (b, p)) == found[b][p];
      assert Inside(all, (b, p));
    }
    if p :| 0 <= p < |all[b]| && Scan(all[b][p], wanted[b], changed) != NO_REASON {
      assert Inside(all, (b, p));
      assert At(found, (b, p)) != NO_REASON;
    }
  }

  // The blocks found, in order.
  function Blocks(found: Found, n: nat): seq<nat> {
    if n == 0 then [] else Blocks(found, n - 1) + (if n - 1 in found then [n - 1] else [])
  }
}
