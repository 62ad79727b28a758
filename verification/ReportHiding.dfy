/**
 When a client can hide a loss from the others. A step that buries an unsent entry is the only
 one after which a later report can say FALSE of a lost entry (`ReportOverflow`); here, after
 every such step some later report can, by ordinary changes alone.
 */
module ReportHiding {
  import opened Octets
  import opened Data
  import opened ReportWire
  import opened Reporting
  import opened ReportBlock
  import opened ReportRuns
  import opened ReportSizes
  import opened ReportOverflow

  // --- runs one after the other ----------------------------------------------------------------

  lemma {:induction false} RunsOn(b: Block, es: seq<Event>, more: seq<Event>)
    requires Typed(b)
    ensures Typed(Run(b, es)) && Run(b, es + more) == Run(Run(b, es), more)
    ensures PossibleRun(b, es + more) <==> PossibleRun(b, es) && PossibleRun(Run(b, es), more)
    ensures NeverBuries(b, es + more) <==> NeverBuries(b, es) && NeverBuries(Run(b, es), more)
  {
    hide Step, Buries, Possible;
    if more == [] {
      assert es + more == es;
    } else {
      var n := |more| - 1;
      RunsOn(b, es, more[..n]);
      assert (es + more)[..|es + more| - 1] == es + more[..n];
    }
  }

  lemma OneEvent(b: Block, e: Event)
    requires Typed(b)
    ensures Run(b, [e]) == Step(b, e) && (PossibleRun(b, [e]) <==> Possible(b, e))
    ensures NeverBuries(b, [e]) <==> !Buries(b, e)
  {
    hide Step, Buries, Possible;
    RunSnoc(b, [], e);
    assert [] + [e] == [e];
    assert [e][..0] == [];
  }

  lemma TwoEvents(b: Block, d: Event, e: Event)
    requires Typed(b)
    ensures Typed(Step(b, d)) && Run(b, [d, e]) == Step(Step(b, d), e)
    ensures Possible(b, d) && Possible(Step(b, d), e) ==> PossibleRun(b, [d, e])
    ensures !Buries(b, d) && !Buries(Step(b, d), e) ==> NeverBuries(b, [d, e])
  {
    hide Step, Buries, Possible, Run, PossibleRun, NeverBuries;
    OneEvent(b, d);
    RunsOn(b, [d], [e]);
    OneEvent(Run(b, [d]), e);
    assert [d] + [e] == [d, e];
  }

  // --- the next entry --------------------------------------------------------------------------

  // Changes and timers that make an enabled block send one more entry.
  function Prompt(b: Block): seq<Event> {
    if b.config.bufTm == 0 then [AChange(SmallChange())]
    else if b.gathering.pending.Some? then [AGatherTimer(b.gathering.pending.value.serial)]
    else [AChange(SmallChange()), AGatherTimer(b.gathering.serials)]
  }

  // One entry was made, of `size` octets, kept and sent; the rest of the block is as it was.
  ghost predicate SentOne(b: Block, r: Block, size: nat)
    requires Typed(b)
  {
    exists width, items :: && r.store == Emitted(b.fixed, b.store, true, b.hold.owner, width, items)
                           && Size(MakeEntry(b.store.next, width, items)) == size
                           && r == b.(store := r.store, gathering := r.gathering)
  }

  lemma Sends(b: Block, r: Block, width: nat, items: Change)
    requires Typed(b) && b.enabled && r == Emit(b, width, items).(gathering := r.gathering)
    ensures SentOne(b, r, ContentSize(items, width))
  {
    hide Emitted, MakeEntry, Size, ContentSize;
    EntrySize(b.store.next, width, items);
  }

  lemma TimersAreSteps(b: Block, items: Change, serial: nat)
    requires Typed(b)
    ensures Step(b, AChange(items)) == Changed(b, items) && Step(b, AGatherTimer(serial)) == GatherTimer(b, serial)
  {
    hide Write, Changed, GatherTimer, IntegrityTimer;
  }

  lemma TimerFlushes(b: Block, width: nat, items: Change)
    requires Typed(b) && b.enabled && b.gathering.pending.Some? && items != map[]
    requires b.gathering.pending.value == Gathered(b.gathering.pending.value.serial, width, items)
    ensures SentOne(b, GatherTimer(b, b.gathering.pending.value.serial), ContentSize(items, width))
  {
    hide Emitted, ContentSize, SentOne;
    Sends(b, Flush(b), width, items);
  }

  lemma PromptAlone(b: Block)
    requires Typed(b) && b.enabled && b.config.members > 0 && b.config.bufTm == 0
    ensures SentOne(b, Step(b, AChange(SmallChange())), SMALLEST_ENTRY)
  {
    NotEmpty();
    SmallContent(b.config.members);
    TimersAreSteps(b, SmallChange(), 0);
    hide Emitted, SmallChange, ContentSize, SentOne, Step;
    Sends(b, Alone(b, SmallChange()), b.config.members, SmallChange());
  }

  lemma NotEmpty()
    ensures SmallChange() != map[] && forall i :: i in SmallChange() <==> i == 0
  {
    assert 0 in SmallChange();
  }

  lemma PromptFlush(b: Block)
    requires Inv(b) && b.enabled && b.gathering.pending.Some?
    ensures Typed(b)
    ensures var g := b.gathering.pending.value;
            SentOne(b, Step(b, AGatherTimer(g.serial)), ContentSize(g.items, g.width))
  {
    IsTyped(b);
    PendingSize(b);
    var g := b.gathering.pending.value;
    TimersAreSteps(b, SmallChange(), g.serial);
    hide Inv, ContentSize, SentOne, Step, GatherTimer;
    TimerFlushes(b, g.width, g.items);
  }

  // A change gathered by itself.
  lemma GatheredAlone(b: Block, items: Change)
    requires Typed(b) && b.enabled && b.config.bufTm > 0 && b.gathering.pending.None? && items != map[]
    ensures var g := b.gathering;
            Changed(b, items) == b.(gathering := Gathering(Some(Gathered(g.serials, b.config.members, items)), g.serials + 1,
                                                           g.notes + [items], g.open + [items], g.groups))
  {
    hide Emitted, Flush;
    assert map[] + items == items;
    assert !Overlap(items, map[]);
  }

  lemma SentOneOf(b: Block, c: Block, r: Block, size: nat)
    requires Typed(b) && c == b.(gathering := c.gathering) && SentOne(c, r, size)
    ensures SentOne(b, r, size)
  {
    hide Emitted, MakeEntry, Size;
  }

  lemma PromptGathered(b: Block)
    requires Inv(b) && b.enabled && b.config.members > 0 && b.config.bufTm > 0 && b.gathering.pending.None?
    ensures Typed(b) && Typed(Step(b, AChange(SmallChange())))
    ensures SentOne(b, Step(Step(b, AChange(SmallChange())), AGatherTimer(b.gathering.serials)), SMALLEST_ENTRY)
  {
    IsTyped(b);
    NotEmpty();
    SmallContent(b.config.members);
    GatheredAlone(b, SmallChange());
    var c := Changed(b, SmallChange());
    TimersAreSteps(b, SmallChange(), 0);
    TimersAreSteps(c, SmallChange(), b.gathering.serials);
    hide Inv, ContentSize, SentOne, SmallChange, Changed, GatherTimer, Step;
    TimerFlushes(c, b.config.members, SmallChange());
    SentOneOf(b, c, GatherTimer(c, b.gathering.serials), SMALLEST_ENTRY);
  }

  lemma PromptsBuryNothing(b: Block, e: Event)
    requires e.AChange? || e.AGatherTimer?
    ensures !Buries(b, e)
  {
    hide NoRoom, Replays, Skipping;
  }

  lemma PromptSends(b: Block)
    requires Inv(b) && b.enabled && b.config.members > 0
    ensures Typed(b) && PossibleRun(b, Prompt(b)) && NeverBuries(b, Prompt(b))
    ensures SentOne(b, Run(b, Prompt(b)), LeastNext(b))
  {
    IsTyped(b);
    hide Inv, Step, ContentSize, SentOne, SmallChange, Run, PossibleRun, NeverBuries, Buries, Possible;
    SmallIsPossible(b);
    if b.config.bufTm == 0 {
      PromptAlone(b);
      PromptsBuryNothing(b, AChange(SmallChange()));
      OneEvent(b, AChange(SmallChange()));
    } else if b.gathering.pending.Some? {
      var serial := b.gathering.pending.value.serial;
      PromptFlush(b);
      TimerIsPossible(b, serial);
      PromptsBuryNothing(b, AGatherTimer(serial));
      OneEvent(b, AGatherTimer(serial));
    } else {
      PromptGathered(b);
      var c := Step(b, AChange(SmallChange()));
      TimerIsPossible(c, b.gathering.serials);
      PromptsBuryNothing(b, AChange(SmallChange()));
      PromptsBuryNothing(c, AGatherTimer(b.gathering.serials));
      TwoEvents(b, AChange(SmallChange()), AGatherTimer(b.gathering.serials));
    }
  }

  lemma TimerIsPossible(b: Block, serial: nat)
    ensures Possible(b, AGatherTimer(serial))
  {
  }

  lemma SmallIsPossible(b: Block)
    requires b.config.members > 0
    ensures Possible(b, AChange(SmallChange()))
  {
    NotEmpty();
  }

  // --- a buried entry --------------------------------------------------------------------------

  predicate IsKept(s: Store, id: nat) {
    exists i :: 0 <= i < |s.buffer| && s.buffer[i].id == id
  }

  // An unsent entry is kept below the mark, as is everything; nothing is marked lost.
  predicate Buried(s: Store, id: nat) {
    IsKept(s, id) && !WasSent(s.reports, id) && NoneAbove(s) && !s.overflowed
  }

  lemma {:induction false} TrimKeepsOrDrops(f: Fixed, s: Store, id: nat)
    requires IsKept(s, id) || id in s.drops
    ensures IsKept(Trimmed(f, s), id) || id in Trimmed(f, s).drops
    decreases |s.buffer|
  {
    if TooMuch(f, s) {
      var t := DropOldest(s);
      if i :| 0 <= i < |s.buffer| && s.buffer[i].id == id {
        if i > 0 {
          assert t.buffer[i - 1].id == id;
        } else {
          assert t.drops[|s.drops|] == id;
        }
      } else {
        var i :| 0 <= i < |s.drops| && s.drops[i] == id;
        assert t.drops[i] == id;
      }
      TrimKeepsOrDrops(f, t, id);
    }
  }

  // All that is kept is sent: so is the newest entry made.
  lemma MarkIsNewest(f: Fixed, s: Store)
    requires StoreInv(f, s) && NoneAbove(s) && s.buffer != []
    ensures s.sent == |s.entries|
  {
    hide TotalSize, Bounded, Logged;
    KeptId(s, |s.buffer| - 1);
  }

  // What keeping a new entry does to a buried one: it stays, or is dropped and not marked.
  lemma KeepBuried(f: Fixed, s: Store, e: Entry, id: nat)
    requires StoreInv(f, s) && f.buffered && e.id == s.next && Buried(s, id)
    ensures var k := NewKept(f, s, e);
            && StoreInv(f, k) && !k.overflowed && k.reports == s.reports && k.sent == s.sent
            && (IsKept(k, id) || id in k.drops)
            && (forall i :: 0 <= i < |k.buffer| ==> k.buffer[i].id <= e.id) && id < e.id
  {
    hide TotalSize, Trimmed, Logged, Bounded, WasSent;
    KeepKeeps(f, s, e);
    MarkIsNewest(f, s);
    var u := Appended(s.(entries := s.entries + [e], next := s.next + 1), e);
    var i :| 0 <= i < |s.buffer| && s.buffer[i].id == id;
    assert u.buffer[i].id == id;
    KeptId(s, i);
    TrimKeepsOrDrops(f, u, id);
    var k := NewKept(f, s, e);
    EntryIdKeeps(f, Trimmed(f, u), e.id);
    forall j | 0 <= j < |k.buffer|
      ensures k.buffer[j].id <= e.id
    {
      KeptId(k, j);
    }
  }

  lemma DroppedIsLost(f: Fixed, s: Store, id: nat)
    requires StoreInv(f, s) && id in s.drops && !WasSent(s.reports, id)
    ensures Lost(s.trace)
  {
    hide Tail, Bounded, Marked, Told, WasSent;
  }

  lemma LieIsHidden(trace: seq<Happening>, r: SentReport)
    requires Lost(trace) && !r.bufOvfl
    ensures Hidden(trace + [Reported(r)])
  {
    hide Lost;
    assert (trace + [Reported(r)])[..|trace|] == trace;
    assert (trace + [Reported(r)])[|trace|] == Reported(r);
  }

  // The next entry sent leaves a buried one buried, or drops it and says FALSE.
  lemma EmitBuried(f: Fixed, s: Store, to: Option<nat>, width: nat, items: Change, id: nat)
    requires StoreInv(f, s) && f.buffered && Buried(s, id)
    ensures f.modulo > 0
    ensures var t := Emitted(f, s, true, to, width, items); Buried(t, id) || Hidden(t.trace)
  {
    StoreTyped(f, s);
    EmittedIs(f, s, to, width, items);
    hide StoreInv, MakeEntry, Emitted, NewKept, Lost, WasSent, Hidden;
    var e := MakeEntry(s.next, width, items);
    KeepBuried(f, s, e, id);
    var k := NewKept(f, s, e);
    var t := Sent(f, k, to, e);
    if IsKept(k, id) {
      SentGrows(f, k, to, e, id);
      assert IsKept(t, id);
    } else {
      DroppedIsLost(f, k, id);
      LieIsHidden(k.trace, SentReport(to, e, k.sqNum, f.buffered && k.overflowed));
    }
  }

  lemma OneMoreBuried(b: Block, r: Block, size: nat, id: nat)
    requires Inv(b) && Typed(b) && b.fixed.buffered && Buried(b.store, id) && SentOne(b, r, size)
    ensures Buried(r.store, id) || Hidden(r.store.trace)
    ensures |r.store.entries| == |b.store.entries| + 1
  {
    hide HoldInv, GatherInv, StoreInv, Emitted, MakeEntry, Size, Hidden, Buried;
    var width, items :| && r.store == Emitted(b.fixed, b.store, true, b.hold.owner, width, items)
                        && Size(MakeEntry(b.store.next, width, items)) == size
                        && r == b.(store := r.store, gathering := r.gathering);
    EmitBuried(b.fixed, b.store, b.hold.owner, width, items, id);
    EmitKeeps(b.fixed, b.store, true, b.hold.owner, width, items);
  }

  lemma KeptIsRecent(f: Fixed, s: Store, id: nat)
    requires StoreInv(f, s) && IsKept(s, id)
    ensures |s.entries| - id < f.maxEntries
  {
    hide TotalSize, Marked, Logged;
    var i :| 0 <= i < |s.buffer| && s.buffer[i].id == id;
    KeptId(s, i);
  }

  // Changes go on until the buried entry is dropped: the report that follows says FALSE.
  lemma {:induction false} LiesInTheEnd(b: Block, id: nat) returns (es: seq<Event>)
    requires Inv(b) && b.enabled && b.fixed.buffered && b.config.members > 0 && Buried(b.store, id)
    ensures Typed(b) && PossibleRun(b, es) && NeverBuries(b, es) && Hidden(Run(b, es).store.trace)
    decreases b.fixed.maxEntries - (|b.store.entries| - id)
  {
    IsTyped(b);
    PromptSends(b);
    var first := Prompt(b);
    var r := Run(b, first);
    StillKept(b, id);
    hide Inv, Run, PossibleRun, NeverBuries, Hidden, Buried, Prompt, LeastNext;
    OneMoreBuried(b, r, LeastNext(b), id);
    if Hidden(r.store.trace) {
      es := first;
    } else {
      RunInv(b, first);
      var rest := LiesInTheEnd(r, id);
      RunsOn(b, first, rest);
      es := first + rest;
    }
  }

  lemma StillKept(b: Block, id: nat)
    requires Inv(b) && Buried(b.store, id)
    ensures |b.store.entries| - id < b.fixed.maxEntries
  {
    hide HoldInv, GatherInv, StoreInv, WasSent, NoneAbove;
    KeptIsRecent(b.fixed, b.store, id);
  }

  // --- the step that buries --------------------------------------------------------------------

  // The client is sent a later entry: what it skipped is below the mark at once.
  lemma BuriedByReplay(f: Fixed, s: Store, to: Option<nat>) returns (id: nat)
    requires StoreInv(f, s) && Skipping(s) && Replays(s)
    ensures f.modulo > 0 && Buried(SentAll(f, s, to, AboveIn(s.buffer, s.entryId)), id)
  {
    StoreTyped(f, s);
    hide StoreInv, SentAll, AboveIn, WasSent;
    var t := SentAll(f, s, to, AboveIn(s.buffer, s.entryId));
    var i :| 0 <= i < |s.buffer| && s.sent < s.buffer[i].id <= s.entryId;
    id := s.buffer[i].id;
    NotYetSent(f, s, id);
    AfterEnabling(f, s, to, id);
    assert t.buffer[i].id == id;
    ReplayedAll(f, s, to);
  }

  lemma NotYetSent(f: Fixed, s: Store, id: nat)
    requires StoreInv(f, s) && id > s.sent
    ensures !WasSent(s.reports, id)
  {
    hide Tail, Bounded, Marked, Told, WasSent;
    if WasSent(s.reports, id) {
      SentIsBelow(s.trace, id);
    }
  }

  // After a replay the mark is the newest kept, and the flag is cleared.
  lemma ReplayedAll(f: Fixed, s: Store, to: Option<nat>)
    requires StoreInv(f, s) && Replays(s)
    ensures f.modulo > 0
    ensures var t := SentAll(f, s, to, AboveIn(s.buffer, s.entryId)); NoneAbove(t) && !t.overflowed
  {
    StoreTyped(f, s);
    var es := AboveIn(s.buffer, s.entryId);
    var t := SentAll(f, s, to, es);
    var i :| 0 <= i < |s.buffer| && s.buffer[i].id > s.entryId;
    AboveHolds(s.buffer, s.entryId, s.buffer[i].id);
    assert es != [];
    hide StoreInv, AboveIn, SentAll, WasSent;
    NewestAbove(f, s, i);
    AfterEnabling(f, s, to, s.buffer[|s.buffer| - 1].id);
    forall j | 0 <= j < |t.buffer|
      ensures t.buffer[j].id <= t.sent
    {
      InOrderOfIds(f, s, j);
    }
    NotOverflowed(f, s, to, es);
  }

  lemma NewestAbove(f: Fixed, s: Store, i: nat)
    requires StoreInv(f, s) && i < |s.buffer|
    ensures s.buffer[|s.buffer| - 1].id >= s.buffer[i].id
  {
    InOrderOfIds(f, s, i);
  }

  lemma InOrderOfIds(f: Fixed, s: Store, i: nat)
    requires StoreInv(f, s) && i < |s.buffer|
    ensures s.buffer[i].id <= s.buffer[|s.buffer| - 1].id
  {
    hide TotalSize, Bounded, Marked, Logged;
    KeptId(s, i);
    KeptId(s, |s.buffer| - 1);
  }

  lemma NotOverflowed(f: Fixed, s: Store, to: Option<nat>, es: seq<Entry>)
    requires f.modulo > 0 && es != []
    ensures !SentAll(f, s, to, es).overflowed
  {
  }

  // Nothing is sent at the enabling, and the next entry leaves room for the newest.
  lemma BuriedByNext(b: Block, r: Block) returns (id: nat)
    requires Inv(b) && Typed(b) && b.enabled && b.fixed.buffered && Skipping(b.store)
    requires b.fixed.maxEntries >= 2 && !Cramped(b.fixed, b.store, LeastNext(b)) && SentOne(b, r, LeastNext(b))
    ensures Buried(r.store, id)
  {
    hide HoldInv, GatherInv, StoreInv, Emitted, MakeEntry, Size, Buried, LeastNext;
    var width, items :| && r.store == Emitted(b.fixed, b.store, true, b.hold.owner, width, items)
                        && Size(MakeEntry(b.store.next, width, items)) == LeastNext(b)
                        && r == b.(store := r.store, gathering := r.gathering);
    id := EmitBuries(b.fixed, b.store, b.hold.owner, width, items);
  }

  lemma EmitBuries(f: Fixed, s: Store, to: Option<nat>, width: nat, items: Change) returns (id: nat)
    requires StoreInv(f, s) && f.buffered && Skipping(s) && !Cramped(f, s, Size(MakeEntry(s.next, width, items)))
    ensures f.modulo > 0 && Buried(Emitted(f, s, true, to, width, items), id)
  {
    StoreTyped(f, s);
    var i :| 0 <= i < |s.buffer| && s.sent < s.buffer[i].id <= s.entryId;
    EmittedIs(f, s, to, width, items);
    hide StoreInv, MakeEntry, Emitted, NewKept, WasSent, Size, Cramped, Buried, Sent;
    NewestAbove(f, s, i);
    id := s.buffer[|s.buffer| - 1].id;
    NotYetSent(f, s, id);
    var e := MakeEntry(s.next, width, items);
    NewestStays(f, s, e);
    SendBuries(f, NewKept(f, s, e), to, e, id);
  }

  lemma SendBuries(f: Fixed, k: Store, to: Option<nat>, e: Entry, id: nat)
    requires f.modulo > 0 && |k.buffer| >= 2 && k.buffer[|k.buffer| - 2].id == id && id < e.id
    requires !WasSent(k.reports, id) && forall i :: 0 <= i < |k.buffer| ==> k.buffer[i].id <= e.id
    ensures Buried(Sent(f, k, to, e), id)
  {
    hide WasSent;
    var t := Sent(f, k, to, e);
    assert t.buffer[|t.buffer| - 2].id == id;
    SentGrows(f, k, to, e, id);
  }

  // Two entries that fit together: the newest kept is not driven out by the next.
  lemma NewestStays(f: Fixed, s: Store, e: Entry)
    requires StoreInv(f, s) && f.buffered && e.id == s.next && s.buffer != [] && !Cramped(f, s, Size(e))
    ensures var k := NewKept(f, s, e);
            && |k.buffer| >= 2 && k.buffer[|k.buffer| - 2] == s.buffer[|s.buffer| - 1] && k.reports == s.reports
            && s.buffer[|s.buffer| - 1].id < e.id
            && forall i :: 0 <= i < |k.buffer| ==> k.buffer[i].id <= e.id
  {
    hide TotalSize, Trimmed, Logged, Size;
    KeepKeeps(f, s, e);
    var u := Appended(s.(entries := s.entries + [e], next := s.next + 1), e);
    var k := Trimmed(f, u);
    TrimmedLong(f, s, e);
    KeptId(s, |s.buffer| - 1);
    var n := |k.entries|;
    assert k.buffer[|k.buffer| - 2] == k.entries[n - 2] == s.entries[n - 2];
    assert s.buffer[|s.buffer| - 1] == s.entries[n - 2];
    forall i | 0 <= i < |k.buffer|
      ensures k.buffer[i].id <= e.id
    {
      KeptId(k, i);
    }
  }

  lemma TrimmedLong(f: Fixed, s: Store, e: Entry)
    requires StoreInv(f, s) && f.buffered && e.id == s.next && s.buffer != [] && !Cramped(f, s, Size(e))
    ensures |Kept(f, s.(entries := s.entries + [e], next := s.next + 1), e).buffer| >= 2
  {
    hide Trimmed, StoreInv, Size, Tail, Bounded, Marked, Traced, TotalSize;
    var u := Appended(s.(entries := s.entries + [e], next := s.next + 1), e);
    UntrimmedTail(f, s, e);
    StoreTyped(f, s);
    TrimKeeps(f, u);
    assert u.buffer[|u.buffer| - 2..] == [s.buffer[|s.buffer| - 1], e];
    TwoEntries(s.buffer[|s.buffer| - 1], e);
  }

  lemma TwoEntries(a: Entry, b: Entry)
    ensures TotalSize([a, b]) == Size(a) + Size(b)
  {
    hide Size;
    assert [a, b][1..] == [b] && [b][1..] == [];
    assert TotalSize([b]) == Size(b) + TotalSize([]);
  }

  lemma UntrimmedTail(f: Fixed, s: Store, e: Entry)
    requires StoreInv(f, s) && f.buffered && e.id == s.next
    ensures var u := Appended(s.(entries := s.entries + [e], next := s.next + 1), e); Tail(u) && Marked(u) && Traced(u)
  {
    hide TotalSize, Told;
    var u := Appended(s.(entries := s.entries + [e], next := s.next + 1), e);
    TotalSizeSnoc(s.buffer, e);
    assert u.buffer == u.entries[|u.entries| - |u.buffer|..];
    assert DroppedUnsent(u) == DroppedUnsent(s);
  }

  // --- the exact condition ---------------------------------------------------------------------

  // Some run from here on, in which no client buries an entry, has a report that says FALSE
  // although an entry no client had been sent was dropped before it.
  ghost predicate CanHide(b: Block)
    requires Typed(b)
  {
    exists es :: PossibleRun(b, es) && NeverBuries(b, es) && Hidden(Run(b, es).store.trace)
  }

  lemma BuryingHides(b: Block, e: Event)
    requires Inv(b) && Typed(b) && Buries(b, e) && b.config.members > 0
    ensures Typed(Step(b, e)) && CanHide(Step(b, e))
  {
    var c, now := e.client, e.now;
    EnablingStep(b, c, now);
    EnabledShape(b, c, now);
    ShapeRest(b, c, now);
    EnabledInv(b, c, now);
    var r := Step(b, e);
    hide Inv, Enabled, Taken, SentAll, AboveIn, CanHide, Buried, Step, Skipping, Replays, NoRoom, LeastNext;
    HasStore(b);
    if Replays(b.store) {
      var id := BuriedByReplay(b.fixed, b.store, Some(c.id));
      LiesLater(r, id);
    } else {
      NothingAbove(b.fixed, b.store, Some(c.id));
      SameRoom(b, r);
      NextHides(r);
    }
  }

  lemma LiesLater(b: Block, id: nat)
    requires Inv(b) && b.enabled && b.fixed.buffered && b.config.members > 0 && Buried(b.store, id)
    ensures Typed(b) && CanHide(b)
  {
    hide Inv, Run, PossibleRun, NeverBuries, Hidden, Buried;
    var es := LiesInTheEnd(b, id);
  }

  lemma NextHides(b: Block)
    requires Inv(b) && b.enabled && b.fixed.buffered && b.config.members > 0 && Skipping(b.store) && !NoRoom(b)
    ensures Typed(b) && CanHide(b)
  {
    PromptSends(b);
    var first := Prompt(b);
    hide Inv, Run, PossibleRun, NeverBuries, Hidden, Prompt, LeastNext, Buried, Skipping, Cramped;
    var r := Run(b, first);
    var id := BuriedByNext(b, r);
    RunInv(b, first);
    SentOneRest(b, r, LeastNext(b));
    var rest := LiesInTheEnd(r, id);
    RunsOn(b, first, rest);
    assert PossibleRun(b, first + rest) && NeverBuries(b, first + rest) && Hidden(Run(b, first + rest).store.trace);
  }

  lemma HasStore(b: Block)
    requires Inv(b)
    ensures StoreInv(b.fixed, b.store)
  {
  }

  lemma SentOneRest(b: Block, r: Block, size: nat)
    requires Typed(b) && SentOne(b, r, size)
    ensures r.enabled == b.enabled && r.fixed == b.fixed && r.config == b.config
  {
    hide Emitted, MakeEntry, Size;
  }

  lemma SameRoom(b: Block, r: Block)
    requires r.store == b.store && r.gathering == b.gathering && r.config == b.config && r.fixed == b.fixed
    ensures NoRoom(r) == NoRoom(b) && LeastNext(r) == LeastNext(b)
  {
    hide ContentSize, Cramped;
  }

  // In any run without burying so far, a block with a data set: the next event lets a later
  // report hide a loss if and only if it buries an entry.
  lemma HidingIsExact(f: Fixed, config: Config, resvTms: int, es: seq<Event>, e: Event)
    requires TypedFixed(f) && PossibleRun(Fresh(f, config, resvTms), es) && NeverBuries(Fresh(f, config, resvTms), es)
    requires Possible(Run(Fresh(f, config, resvTms), es), e) && Run(Fresh(f, config, resvTms), es).config.members > 0
    ensures var b := Run(Fresh(f, config, resvTms), es);
            Typed(b) && Typed(Step(b, e)) && (CanHide(Step(b, e)) <==> Buries(b, e))
  {
    var b := Run(Fresh(f, config, resvTms), es);
    ReachableInv(f, config, resvTms, es);
    OverflowOverRuns(f, config, resvTms, es);
    IsTyped(b);
    StepInv(b, e);
    IsTyped(Step(b, e));
    hide Inv, Run, PossibleRun, NeverBuries, Hidden, Buries, Step, Safe, Honest, Fresh;
    if Buries(b, e) {
      BuryingHides(b, e);
    } else {
      StepSafe(b, e);
      forall more | PossibleRun(Step(b, e), more) && NeverBuries(Step(b, e), more)
        ensures !Hidden(Run(Step(b, e), more).store.trace)
      {
        NeverHidden(Step(b, e), more);
      }
    }
  }

  lemma NeverHidden(b: Block, es: seq<Event>)
    requires Inv(b) && Typed(b) && PossibleRun(b, es) && NeverBuries(b, es) && Safe(b)
    ensures !Hidden(Run(b, es).store.trace)
  {
    hide Inv, Run, PossibleRun, NeverBuries, Hidden, Honest, Sound, NoneAbove, NoRoom;
    RunSafe(b, es);
    RunInv(b, es);
    InvTells(Run(b, es));
    HonestOrHidden(Run(b, es).store.trace);
  }

  // With room for one entry only, no client ever hides a loss.
  lemma OneEntryHidesNothing(b: Block, e: Event)
    requires Inv(b) && b.fixed.maxEntries == 1
    ensures !Buries(b, e)
  {
    hide HoldInv, GatherInv, Tail, Marked, Logged;
  }

  // --- an example ------------------------------------------------------------------------------

  const CLIENT := Client(7, None)
  const TWO_ENTRIES := Fixed(true, 2, 100, 256, 0)
  const ONE_MEMBER := Config(0, 1, false, false, 0)

  function Small(id: nat): Entry {
    MakeEntry(id, 1, SmallChange())
  }

  // Entries 1 and 2 are kept while nobody is there. The client begins after entry 1, which it
  // was never sent; one more change drops it.
  function Example(): (es: seq<Event>)
    ensures |es| == 7
  {
    [AWrite(CLIENT, RptEna(true), 0), AWrite(CLIENT, RptEna(false), 0), AChange(SmallChange()), AChange(SmallChange()),
     AWrite(CLIENT, EntryId(1), 0), AWrite(CLIENT, RptEna(true), 0), AChange(SmallChange())]
  }

  lemma SmallEntry(id: nat)
    ensures Small(id).id == id && Size(Small(id)) == 6
  {
    hide ContentSize;
    EntrySize(id, 1, SmallChange());
    SmallContent(1);
    MadeId(id, 1, SmallChange());
  }

  // Where the block stands after `n` of the events.
  function ExampleStore(n: nat): Store
    requires n <= 7
  {
    var e1, e2, e3 := Small(1), Small(2), Small(3);
    var first := Reported(SentReport(Some(7), e2, 0, false));
    if n < 3 then Store([], 0, false, 0, 1, 0, 0, [], [], [], [])
    else if n == 3 then Store([e1], 6, false, 0, 2, 1, 0, [e1], [], [], [])
    else if n == 4 then Store([e1, e2], 12, false, 0, 3, 2, 0, [e1, e2], [], [], [])
    else if n == 5 then Store([e1, e2], 12, false, 0, 3, 1, 0, [e1, e2], [], [], [])
    else if n == 6 then Store([e1, e2], 12, false, 2, 3, 1, 1, [e1, e2], [], [first.report], [first])
    else
      var second := Reported(SentReport(Some(7), e3, 1, false));
      Store([e2, e3], 12, false, 3, 4, 3, 2, [e1, e2, e3], [], [first.report, second.report], [first, Dropped(1), second])
  }

  predicate IsExample(b: Block, n: nat)
    requires n <= 7
  {
    && b.fixed == TWO_ENTRIES && b.config == ONE_MEMBER && b.store == ExampleStore(n)
    && b.enabled == (n == 1 || n >= 6) && b.everEnabled == (n > 0)
    && (n > 0 ==> b.hold.owner == Some(7)) && (n == 0 ==> b.hold.owner.None? && b.hold.until.None?)
    && b.gathering.pending.None?
  }

  lemma TrimmedOnce(f: Fixed, s: Store)
    ensures !TooMuch(f, s) ==> Trimmed(f, s) == s
    ensures TooMuch(f, s) && !TooMuch(f, DropOldest(s)) ==> Trimmed(f, s) == DropOldest(s)
  {
  }

  // The last change, kept and not yet sent.
  function ExampleKept(): Store {
    var t := ExampleStore(7);
    ExampleStore(6).(buffer := t.buffer, entries := t.entries, drops := [1], next := 4, entryId := 3,
                     trace := ExampleStore(6).trace + [Dropped(1)])
  }

  lemma ExampleKeeps(n: nat)
    requires n == 2 || n == 3 || n == 6
    ensures NewKept(TWO_ENTRIES, ExampleStore(n), Small(ExampleStore(n).next)) == if n < 6 then ExampleStore(n + 1) else ExampleKept()
  {
    hide Small, Size, Trimmed;
    SmallEntry(1);
    SmallEntry(2);
    SmallEntry(3);
    var s := ExampleStore(n);
    var made := s.(entries := s.entries + [Small(s.next)], next := s.next + 1);
    TrimmedOnce(TWO_ENTRIES, Appended(made, Small(s.next)));
  }

  lemma ExampleSends()
    ensures Sent(TWO_ENTRIES, ExampleKept(), Some(7), Small(3)) == ExampleStore(7)
  {
    hide Small;
    SmallEntry(3);
  }

  lemma ExampleEmits(n: nat)
    requires n == 2 || n == 3 || n == 6
    ensures Emitted(TWO_ENTRIES, ExampleStore(n), n == 6, Some(7), 1, SmallChange()) == ExampleStore(n + 1)
  {
    hide Emitted, NewKept, MakeEntry, Small, SmallChange, Sent, ExampleStore, ExampleKept;
    EmittedIs(TWO_ENTRIES, ExampleStore(n), Some(7), 1, SmallChange());
    SmallIsMade(ExampleStore(n).next);
    ExampleKeeps(n);
    if n == 6 {
      ExampleSends();
      ThreeIsNext();
    }
  }

  lemma SmallIsMade(id: nat)
    ensures MakeEntry(id, 1, SmallChange()) == Small(id)
  {
    hide MakeEntry, SmallChange;
  }

  lemma ThreeIsNext()
    ensures ExampleStore(6).next == 3
  {
    hide Small;
  }

  lemma ExampleChange(b: Block, n: nat)
    requires n == 2 || n == 3 || n == 6
    requires IsExample(b, n)
    ensures IsExample(Step(b, AChange(SmallChange())), n + 1) && Possible(b, AChange(SmallChange()))
  {
    NotEmpty();
    TimersAreSteps(b, SmallChange(), 0);
    ExampleEmits(n);
    hide Step, SmallChange, ExampleStore, Emitted;
    assert Changed(b, SmallChange()) == Alone(b, SmallChange());
  }

  lemma ExampleAbove(e1: Entry, e2: Entry)
    requires e1.id == 1 && e2.id == 2
    ensures AboveIn([e1, e2], 1) == [e2]
  {
    assert AboveIn([e1], 1) == [] by { assert [e1][..0] == []; assert AboveIn([], 1) == []; }
    assert [e1, e2][..1] == [e1];
  }

  lemma SendingOne(f: Fixed, s: Store, to: Option<nat>, e: Entry)
    requires f.modulo > 0
    ensures SentAll(f, s, to, [e]) == Sent(f, s, to, e)
  {
    hide Sent;
    assert [e][..0] == [];
    assert SentAll(f, s, to, []) == s;
  }

  lemma ExampleReplays()
    ensures var s := ExampleStore(5); SentAll(TWO_ENTRIES, s, Some(7), AboveIn(s.buffer, s.entryId)) == ExampleStore(6)
  {
    hide Small, SentAll, AboveIn;
    SmallEntry(1);
    SmallEntry(2);
    ExampleAbove(Small(1), Small(2));
    SendingOne(TWO_ENTRIES, ExampleStore(5), Some(7), Small(2));
  }

  lemma ExampleEnables(b: Block)
    requires IsExample(b, 5)
    ensures IsExample(Step(b, AWrite(CLIENT, RptEna(true), 0)), 6)
  {
    hide Step, Enabled, SentAll, AboveIn, ExampleStore;
    ExampleReplays();
    EnablingStep(b, CLIENT, 0);
    EnabledShape(b, CLIENT, 0);
    ShapeRest(b, CLIENT, 0);
  }

  lemma ExampleWrites(b: Block, n: nat)
    requires (n == 0 || n == 1 || n == 4) && IsExample(b, n)
    ensures IsExample(Step(b, Example()[n]), n + 1)
  {
    hide MakeEntry, SmallChange;
    assert AboveIn([], 0) == [];
  }

  lemma ExampleStep(b: Block, n: nat)
    requires n < 7 && IsExample(b, n)
    ensures Possible(b, Example()[n]) && IsExample(Step(b, Example()[n]), n + 1)
  {
    hide Step, IsExample, SmallChange;
    if n == 5 {
      ExampleEnables(b);
    } else if n == 2 || n == 3 || n == 6 {
      ExampleChange(b, n);
    } else {
      ExampleWrites(b, n);
    }
  }

  lemma {:induction false} ExampleRun(n: nat)
    requires n <= 7
    ensures var b := Fresh(TWO_ENTRIES, ONE_MEMBER, 0); PossibleRun(b, Example()[..n]) && IsExample(Run(b, Example()[..n]), n)
  {
    hide Example, IsExample, Step, Possible;
    if n == 0 {
      ExampleBegins();
    } else {
      ExampleRun(n - 1);
      ExampleStep(Run(Fresh(TWO_ENTRIES, ONE_MEMBER, 0), Example()[..n - 1]), n - 1);
      RunSnoc(Fresh(TWO_ENTRIES, ONE_MEMBER, 0), Example()[..n - 1], Example()[n - 1]);
      assert Example()[..n] == Example()[..n - 1] + [Example()[n - 1]];
    }
  }

  lemma ExampleBegins()
    ensures IsExample(Fresh(TWO_ENTRIES, ONE_MEMBER, 0), 0)
  {
  }

  // A client that skips an entry hides its loss: entry 1, never sent, is dropped between two
  // reports, and the second says FALSE.
  lemma LossCanBeHidden()
    ensures var b := Fresh(TWO_ENTRIES, ONE_MEMBER, 0);
            && PossibleRun(b, Example())
            && Run(b, Example()).store.trace == [Reported(SentReport(Some(7), Small(2), 0, false)), Dropped(1),
                                                 Reported(SentReport(Some(7), Small(3), 1, false))]
            && Hidden(Run(b, Example()).store.trace)
  {
    hide Run, PossibleRun, Example, Small;
    ExampleRun(7);
    assert Example()[..7] == Example();
    var trace := ExampleStore(7).trace;
    SmallEntry(2);
    assert trace[..2] == [trace[0]] + [Dropped(1)];
    LostOne(trace[0]);
    assert trace[2].Reported?;
  }

  lemma LostOne(h: Happening)
    requires h.Reported? && h.report.entry.id == 2
    ensures Lost([h] + [Dropped(1)])
  {
    var t := [h] + [Dropped(1)];
    assert t[..1] == [h] && [h][..0] == [];
    assert Since([h]) == [] && ReportsIn([]) == [];
    assert Since(t) == [1] && ReportsIn(t) == ReportsIn([h]) == [h.report];
    assert !WasSent(ReportsIn(t), Since(t)[0]);
  }
}
