/**
 Report control blocks (`server/reporting.py`, IEC 61850-7-2 clause 17): reservation, BufTm
 gathering, the bounded buffer of a BRCB and what an enabling client is sent. A block is a
 value here, changed by whole steps; `ReportControl.dfy` holds the mutable block.
 */
module Reporting {
  import opened Modulo
  import opened Octets
  import opened ReportWire

  // --- entries -----------------------------------------------------------------------------

  // An entry as it will be sent, its values and reasons encoded once.
  datatype Entry = Entry(id: nat, indexes: seq<nat>, values: Bytes, reasons: Bytes)

  function Size(e: Entry): nat {
    |e.values| + |e.reasons|
  }

  function TotalSize(es: seq<Entry>): nat {
    if es == [] then 0 else Size(es[0]) + TotalSize(es[1..])
  }

  // A member's reason, and its value read at the change.
  datatype Item = Item(reason: Reason, value: AccessResult)

  // A change: the members it concerns, by their places in the data set.
  type Change = map<nat, Item>

  // The keys below `n`, in order.
  function Sorted(keys: set<nat>, n: nat): (r: seq<nat>)
    ensures forall i :: 0 <= i < |r| ==> r[i] in keys && r[i] < n
  {
    if n == 0 then [] else Sorted(keys, n - 1) + (if n - 1 in keys then [n - 1] else [])
  }

  function ValuesOf(items: Change, indexes: seq<nat>): (r: seq<AccessResult>)
    requires forall i :: 0 <= i < |indexes| ==> indexes[i] in items
    ensures |r| == |indexes|
  {
    seq(|indexes|, i requires 0 <= i < |indexes| => items[indexes[i]].value)
  }

  function ReasonsOf(items: Change, indexes: seq<nat>): (r: seq<Reason>)
    requires forall i :: 0 <= i < |indexes| ==> indexes[i] in items
    ensures |r| == |indexes|
  {
    seq(|indexes|, i requires 0 <= i < |indexes| => items[indexes[i]].reason)
  }

  // `_new_entry`, for a data set of `width` members.
  function MakeEntry(id: nat, width: nat, items: Change): Entry {
    var indexes := Sorted(items.Keys, width);
    Entry(id, indexes, EncodeResults(ValuesOf(items, indexes)),
          EncodeResults(Leaves(ReasonLeaves(ReasonsOf(items, indexes)))))
  }

  predicate Below(items: Change, width: nat) {
    forall i :: i in items ==> i < width
  }

  lemma {:induction false} SortedIsExact(keys: set<nat>, n: nat)
    ensures Ascending(Sorted(keys, n))
    ensures forall k: nat :: k in Sorted(keys, n) <==> k in keys && k < n
  {
    if n > 0 {
      SortedIsExact(keys, n - 1);
    }
  }

  // An entry includes each member it was made of once, in the data set's order, and its
  // octets are those of a report's content: see ReportWire.ReportRoundTrip.
  lemma EntryHoldsItsItems(id: nat, width: nat, items: Change, time: Bytes, a: Attributes)
    requires Below(items, width) && |a.members| == width && |time| == 6 && id < TWO_64
    ensures var e := MakeEntry(id, width, items);
            && (forall i :: i in e.indexes <==> i in items)
            && (forall i :: 0 <= i < |e.indexes| ==> e.indexes[i] in items)
            && var c := Content(id, time, e.indexes, ValuesOf(items, e.indexes), ReasonsOf(items, e.indexes));
               && Covers(a, c)
               && SentOctets(a, c) == EncodeResults(OwnResults(a, c))
                                      + (e.values + if SentOptFlds(a).reasonForInclusion then e.reasons else [])
  {
    hide EncodeResults, OwnResults, Leaves, ReasonLeaves;
    SortedIsExact(items.Keys, width);
    assert EncodeResults([]) == [] by {
      NoResults();
    }
  }

  lemma NoResults()
    ensures EncodeResults([]) == []
  {
  }

  // --- the buffer --------------------------------------------------------------------------

  datatype SentReport = SentReport(to: Option<nat>, entry: Entry, sqNum: nat, bufOvfl: bool)

  // What happens to the entries of a block, as far as BufOvfl is concerned.
  datatype Happening = Dropped(id: nat) | Reported(report: SentReport) | PurgedAll

  // What does not change in a block.
  datatype Fixed = Fixed(buffered: bool, maxEntries: nat, maxBytes: nat, modulo: nat, firstSq: nat)

  predicate TypedFixed(f: Fixed) {
    f.maxEntries >= 1 && f.modulo >= 1 && f.firstSq < f.modulo
  }

  // The entries of a block. The last four are its history: every entry made, all that
  // happened to them and, drawn from that, the EntryIDs dropped since the last report or purge
  // and every report sent.
  datatype Store = Store(buffer: seq<Entry>, bytes: int, overflowed: bool, sent: nat, next: nat, entryId: nat,
                         sqNum: nat, entries: seq<Entry>, drops: seq<nat>, reports: seq<SentReport>,
                         trace: seq<Happening>)

  predicate TooMuch(f: Fixed, s: Store) {
    |s.buffer| > 1 && (|s.buffer| > f.maxEntries || s.bytes > f.maxBytes)
  }

  function DropOldest(s: Store): Store
    requires s.buffer != []
  {
    var d := s.buffer[0];
    s.(buffer := s.buffer[1..], bytes := s.bytes - Size(d), overflowed := s.overflowed || d.id > s.sent,
       drops := s.drops + [d.id], trace := s.trace + [Dropped(d.id)])
  }

  // The oldest dropped beyond the bounds.
  function Trimmed(f: Fixed, s: Store): Store
    decreases |s.buffer|
  {
    if TooMuch(f, s) then Trimmed(f, DropOldest(s)) else s
  }

  function Appended(s: Store, e: Entry): Store {
    s.(buffer := s.buffer + [e], bytes := s.bytes + Size(e))
  }

  // `keep`.
  function Kept(f: Fixed, s: Store, e: Entry): Store {
    Trimmed(f, Appended(s, e))
  }

  function Purged(s: Store): Store {
    s.(buffer := [], bytes := 0, overflowed := false, drops := [], trace := s.trace + [PurgedAll])
  }

  // `_send`.
  function Sent(f: Fixed, s: Store, to: Option<nat>, e: Entry): Store
    requires f.modulo > 0
  {
    var r := SentReport(to, e, s.sqNum, f.buffered && s.overflowed);
    s.(reports := s.reports + [r], trace := s.trace + [Reported(r)], sqNum := (s.sqNum + 1) % f.modulo,
       overflowed := false, drops := [], sent := if e.id > s.sent then e.id else s.sent)
  }

  // `_new_entry`, then `_deliver`.
  function Made(s: Store, width: nat, items: Change): Store {
    s.(entries := s.entries + [MakeEntry(s.next, width, items)], next := s.next + 1)
  }

  function Delivered(f: Fixed, s: Store, enabled: bool, to: Option<nat>, e: Entry): Store
    requires f.modulo > 0
  {
    var kept := if f.buffered then Kept(f, s, e).(entryId := e.id) else s;
    if enabled then Sent(f, kept, to, e) else kept
  }

  function Emitted(f: Fixed, s: Store, enabled: bool, to: Option<nat>, width: nat, items: Change): Store
    requires f.modulo > 0
  {
    Delivered(f, Made(s, width, items), enabled, to, MakeEntry(s.next, width, items))
  }

  // The kept entries above `start`.
  function AboveIn(buffer: seq<Entry>, start: nat): seq<Entry> {
    if buffer == [] then []
    else AboveIn(buffer[..|buffer| - 1], start)
         + (if buffer[|buffer| - 1].id > start then [buffer[|buffer| - 1]] else [])
  }

  function SentAll(f: Fixed, s: Store, to: Option<nat>, es: seq<Entry>): Store
    requires f.modulo > 0
  {
    if es == [] then s else Sent(f, SentAll(f, s, to, es[..|es| - 1]), to, es[|es| - 1])
  }

  // --- what every step keeps of the buffer ---------------------------------------------------

  predicate Numbered(es: seq<Entry>) {
    forall i :: 0 <= i < |es| ==> es[i].id == i + 1
  }

  // The buffer is the end of all the entries made: consecutive EntryIDs up to the newest.
  predicate Tail(s: Store) {
    && s.next == |s.entries| + 1 && Numbered(s.entries)
    && |s.buffer| <= |s.entries| && s.buffer == s.entries[|s.entries| - |s.buffer|..]
    && s.bytes == TotalSize(s.buffer)
  }

  predicate Bounded(f: Fixed, s: Store) {
    |s.buffer| <= f.maxEntries && (s.bytes <= f.maxBytes || |s.buffer| <= 1)
  }

  // An entry above the mark was dropped since the last report or purge.
  predicate DroppedUnsent(s: Store) {
    exists i :: 0 <= i < |s.drops| && s.drops[i] > s.sent
  }

  predicate Marked(s: Store) {
    && s.sent <= |s.entries|
    && (s.overflowed <==> DroppedUnsent(s))
    && forall i :: 0 <= i < |s.drops| ==> 1 <= s.drops[i] <= |s.entries| - |s.buffer|
  }

  // The EntryIDs dropped since the last report or purge.
  function Since(trace: seq<Happening>): seq<nat> {
    if trace == [] then []
    else
      var n := |trace| - 1;
      match trace[n]
      case Dropped(id) => Since(trace[..n]) + [id]
      case _ => []
  }

  function ReportsIn(trace: seq<Happening>): seq<SentReport> {
    if trace == [] then []
    else
      var n := |trace| - 1;
      match trace[n]
      case Reported(r) => ReportsIn(trace[..n]) + [r]
      case _ => ReportsIn(trace[..n])
  }

  // The mark: the highest EntryID reported, 0 before any.
  function HighestSent(trace: seq<Happening>): nat {
    if trace == [] then 0
    else
      var n := |trace| - 1;
      var before := HighestSent(trace[..n]);
      if trace[n].Reported? && trace[n].report.entry.id > before then trace[n].report.entry.id else before
  }

  predicate DroppedAbove(trace: seq<Happening>) {
    exists i :: 0 <= i < |Since(trace)| && Since(trace)[i] > HighestSent(trace)
  }

  // BufOvfl in every report: TRUE exactly when an entry above the mark was dropped since the
  // report before, or the last purge.
  predicate Told(trace: seq<Happening>) {
    forall k :: 0 <= k < |trace| && trace[k].Reported? ==> (trace[k].report.bufOvfl <==> DroppedAbove(trace[..k]))
  }

  predicate Traced(s: Store) {
    && s.drops == Since(s.trace) && s.reports == ReportsIn(s.trace) && s.sent == HighestSent(s.trace)
    && Told(s.trace)
  }

  predicate Logged(f: Fixed, s: Store)
    requires f.modulo > 0
  {
    Traced(s) && Counted(f, s)
  }

  predicate Counted(f: Fixed, s: Store)
    requires f.modulo > 0
  {
    && s.sqNum == (f.firstSq + |s.reports|) % f.modulo
    && (forall i :: 0 <= i < |s.reports| ==> s.reports[i].sqNum == (f.firstSq + i) % f.modulo)
    && (forall i :: 0 <= i < |s.reports| ==> 1 <= s.reports[i].entry.id <= s.sent)
  }

  predicate StoreInv(f: Fixed, s: Store) {
    && TypedFixed(f) && Tail(s) && Bounded(f, s) && Marked(s) && Logged(f, s)
    && (!f.buffered ==> s.buffer == [] && s.drops == [])
  }

  lemma {:induction false} TotalSizeSnoc(es: seq<Entry>, e: Entry)
    ensures TotalSize(es + [e]) == TotalSize(es) + Size(e)
  {
    if es == [] {
      assert [] + [e] == [e] && [e][1..] == [];
    } else {
      TotalSizeSnoc(es[1..], e);
      assert (es + [e])[1..] == es[1..] + [e];
    }
  }

  // The trace grows by one happening.
  lemma TraceGrows(trace: seq<Happening>, h: Happening)
    requires Told(trace) && (h.Reported? ==> (h.report.bufOvfl <==> DroppedAbove(trace)))
    ensures Told(trace + [h])
    ensures Since(trace + [h]) == if h.Dropped? then Since(trace) + [h.id] else []
    ensures ReportsIn(trace + [h]) == if h.Reported? then ReportsIn(trace) + [h.report] else ReportsIn(trace)
    ensures HighestSent(trace + [h])
         == if h.Reported? && h.report.entry.id > HighestSent(trace) then h.report.entry.id else HighestSent(trace)
  {
    hide DroppedAbove;
    var t := trace + [h];
    assert t[..|trace|] == trace;
    forall k | 0 <= k < |t| && t[k].Reported?
      ensures t[k].report.bufOvfl <==> DroppedAbove(t[..k])
    {
      if k < |trace| {
        assert t[..k] == trace[..k] && t[k] == trace[k];
      }
    }
  }

  lemma DropKeeps(s: Store)
    requires Tail(s) && Marked(s) && Traced(s) && s.buffer != []
    ensures Tail(DropOldest(s)) && Marked(DropOldest(s)) && Traced(DropOldest(s))
  {
    DropTells(s);
    hide Traced, TotalSize;
    var t := DropOldest(s);
    var d := s.buffer[0].id;
    assert TotalSize(s.buffer) == Size(s.buffer[0]) + TotalSize(s.buffer[1..]) by { FirstSize(s.buffer); }
    assert s.buffer[0] == s.entries[|s.entries| - |s.buffer|];
    assert t.drops[|s.drops|] == d;
    assert forall i :: 0 <= i < |s.drops| ==> t.drops[i] == s.drops[i];
  }

  lemma DropTells(s: Store)
    requires Traced(s) && s.buffer != []
    ensures Traced(DropOldest(s))
  {
    hide Told;
    TraceGrows(s.trace, Dropped(s.buffer[0].id));
  }

  lemma FirstSize(es: seq<Entry>)
    requires es != []
    ensures TotalSize(es) == Size(es[0]) + TotalSize(es[1..])
  {
  }

  // Trimming drops the fewest oldest entries: what is left is within the bounds, or the
  // newest alone, and keeping one more would not do.
  lemma {:induction false} TrimKeeps(f: Fixed, s: Store)
    requires f.maxEntries >= 1 && Tail(s) && Marked(s) && Traced(s)
    ensures var t := Trimmed(f, s);
            && Tail(t) && Marked(t) && Traced(t) && Bounded(f, t)
            && |t.buffer| <= |s.buffer| && (s.buffer != [] ==> t.buffer != [])
            && t == s.(buffer := t.buffer, bytes := t.bytes, overflowed := t.overflowed, drops := t.drops, trace := t.trace)
            && (|t.buffer| < |s.buffer| ==>
                  |t.buffer| + 1 > f.maxEntries || TotalSize(s.buffer[|s.buffer| - |t.buffer| - 1..]) > f.maxBytes)
    decreases |s.buffer|
  {
    hide TotalSize, Traced;
    if TooMuch(f, s) {
      var d := DropOldest(s);
      DropKeeps(s);
      TrimKeeps(f, d);
      var t := Trimmed(f, s);
      if |t.buffer| < |d.buffer| {
        assert s.buffer[|s.buffer| - |t.buffer| - 1..] == d.buffer[|d.buffer| - |t.buffer| - 1..];
      } else {
        assert s.buffer[|s.buffer| - |t.buffer| - 1..] == s.buffer;
      }
    }
  }

  // A new entry, kept: the buffer stays the end of the entries made.
  lemma KeepKeeps(f: Fixed, s: Store, e: Entry)
    requires StoreInv(f, s) && f.buffered && e.id == s.next
    ensures var t := Kept(f, s.(entries := s.entries + [e], next := s.next + 1), e);
            && StoreInv(f, t) && t.buffer != [] && t.buffer[|t.buffer| - 1] == e
            && t == s.(buffer := t.buffer, bytes := t.bytes, overflowed := t.overflowed, drops := t.drops, trace := t.trace,
                       entries := s.entries + [e], next := s.next + 1)
  {
    hide TotalSize, Trimmed, Told;
    var made := s.(entries := s.entries + [e], next := s.next + 1);
    var u := Appended(made, e);
    TotalSizeSnoc(s.buffer, e);
    assert u.buffer == u.entries[|u.entries| - |u.buffer|..];
    assert DroppedUnsent(u) == DroppedUnsent(s);
    TrimKeeps(f, u);
    var t := Trimmed(f, u);
    assert t.buffer[|t.buffer| - 1] == t.entries[|t.entries| - 1];
  }

  // The flag a report takes: see Told.
  lemma FlagIsDrop(f: Fixed, s: Store)
    requires StoreInv(f, s)
    ensures f.buffered && s.overflowed <==> DroppedAbove(s.trace)
  {
    hide Tail, Bounded, Told;
  }

  lemma SendKeeps(f: Fixed, s: Store, to: Option<nat>, e: Entry)
    requires StoreInv(f, s) && 1 <= e.id <= |s.entries|
    ensures var t := Sent(f, s, to, e);
            && StoreInv(f, t)
            && t.reports == s.reports + [SentReport(to, e, s.sqNum, DroppedAbove(s.trace))]
  {
    SendTells(f, s, to, e);
    SendCounts(f, s, to, e);
    hide TotalSize, Traced, Counted;
    FlagIsDrop(f, s);
  }

  lemma SendTells(f: Fixed, s: Store, to: Option<nat>, e: Entry)
    requires StoreInv(f, s)
    ensures Traced(Sent(f, s, to, e))
  {
    hide Tail, Bounded, Marked, Told, Counted;
    FlagIsDrop(f, s);
    TraceGrows(s.trace, Reported(SentReport(to, e, s.sqNum, f.buffered && s.overflowed)));
  }

  lemma SendCounts(f: Fixed, s: Store, to: Option<nat>, e: Entry)
    requires f.modulo > 0 && Counted(f, s) && 1 <= e.id
    ensures Counted(f, Sent(f, s, to, e))
  {
    var t := Sent(f, s, to, e);
    OfSuccessor(f.firstSq + |s.reports|, f.modulo);
    assert forall i :: 0 <= i < |s.reports| ==> t.reports[i] == s.reports[i];
  }

  // Making an entry and delivering it.
  lemma EmitKeeps(f: Fixed, s: Store, enabled: bool, to: Option<nat>, width: nat, items: Change)
    requires StoreInv(f, s)
    ensures var t := Emitted(f, s, enabled, to, width, items);
            && StoreInv(f, t)
            && t.entries == s.entries + [MakeEntry(s.next, width, items)]
            && (if enabled then && |t.reports| == |s.reports| + 1 && t.reports[..|s.reports|] == s.reports
                                && t.reports[|s.reports|].to == to
                                && t.reports[|s.reports|].entry == t.entries[|s.entries|]
                else t.reports == s.reports)
  {
    hide TotalSize, MakeEntry, Kept;
    var e := MakeEntry(s.next, width, items);
    MadeId(s.next, width, items);
    if f.buffered {
      KeepKeeps(f, s, e);
      var kept := Kept(f, Made(s, width, items), e).(entryId := e.id);
      assert StoreInv(f, kept);
      SendKeeps(f, kept, to, e);
    } else {
      var made := Made(s, width, items);
      assert DroppedUnsent(made) == DroppedUnsent(s);
      assert StoreInv(f, made);
      SendKeeps(f, made, to, e);
    }
  }

  lemma MadeId(id: nat, width: nat, items: Change)
    ensures MakeEntry(id, width, items).id == id
  {
  }

  // The reports of `t` are those of `s`, then one for each of the entries, to `to`.
  predicate SentFrom(s: Store, t: Store, to: Option<nat>, es: seq<Entry>) {
    && |t.reports| == |s.reports| + |es| && t.reports[..|s.reports|] == s.reports
    && forall i :: |s.reports| <= i < |t.reports| ==> t.reports[i].to == to && t.reports[i].entry == es[i - |s.reports|]
  }

  lemma {:induction false} SendAllKeeps(f: Fixed, s: Store, to: Option<nat>, es: seq<Entry>)
    requires StoreInv(f, s) && forall i :: 0 <= i < |es| ==> 1 <= es[i].id <= |s.entries|
    ensures var t := SentAll(f, s, to, es);
            && StoreInv(f, t) && t.entries == s.entries && t.buffer == s.buffer
            && SentFrom(s, t, to, es)
  {
    hide StoreInv, SentFrom, Sent;
    SendsNone(s, to);
    assert TypedFixed(f) by { StoreTyped(f, s); }
    if es != [] {
      var n := |es| - 1;
      SendAllKeeps(f, s, to, es[..n]);
      SendKeeps(f, SentAll(f, s, to, es[..n]), to, es[n]);
      SendsOneMore(f, s, SentAll(f, s, to, es[..n]), to, es);
    }
  }

  lemma StoreTyped(f: Fixed, s: Store)
    requires StoreInv(f, s)
    ensures TypedFixed(f)
  {
  }

  lemma SendsNone(s: Store, to: Option<nat>)
    ensures SentFrom(s, s, to, [])
  {
  }

  lemma SendsOneMore(f: Fixed, s: Store, t: Store, to: Option<nat>, es: seq<Entry>)
    requires f.modulo > 0 && es != [] && SentFrom(s, t, to, es[..|es| - 1])
    ensures var u := Sent(f, t, to, es[|es| - 1]); SentFrom(s, u, to, es) && u.entries == t.entries && u.buffer == t.buffer
  {
    var u := Sent(f, t, to, es[|es| - 1]);
    forall i | |s.reports| <= i < |u.reports|
      ensures u.reports[i].to == to && u.reports[i].entry == es[i - |s.reports|]
    {
      if i < |t.reports| {
        assert u.reports[i] == t.reports[i];
      }
    }
    assert u.reports[..|s.reports|] == t.reports[..|s.reports|];
  }

  // Where the entries above `start` begin in the buffer.
  function FirstAbove(s: Store, start: nat): (k: nat)
    requires |s.buffer| <= |s.entries|
    ensures k <= |s.buffer|
  {
    var first := |s.entries| - |s.buffer|;
    if start <= first then 0 else if start - first <= |s.buffer| then start - first else |s.buffer|
  }

  lemma KeptId(s: Store, i: nat)
    requires Tail(s) && i < |s.buffer|
    ensures s.buffer[i].id == |s.entries| - |s.buffer| + i + 1
  {
    hide TotalSize;
    assert s.buffer[i] == s.entries[|s.entries| - |s.buffer| + i];
  }

  // Consecutive entries above a mark are the end of them.
  lemma {:induction false} AboveIsTail(s: Store, start: nat, n: nat)
    requires Tail(s) && n <= |s.buffer|
    ensures AboveIn(s.buffer[..n], start) == if FirstAbove(s, start) <= n then s.buffer[FirstAbove(s, start)..n] else []
  {
    hide Numbered, TotalSize;
    if n > 0 {
      AboveIsTail(s, start, n - 1);
      assert s.buffer[..n][..n - 1] == s.buffer[..n - 1];
      KeptId(s, n - 1);
    }
  }
}
