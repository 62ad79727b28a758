/**
 What becomes of changes (`server/reporting.py`): which are taken up, the entries each event
 makes of them, and, over whole runs, every member of every change in exactly one entry or
 still gathered.
 */
module ReportChanges {
  import opened Octets
  import opened ReportWire
  import opened Reporting
  import opened ReportBlock
  import opened ReportRuns

  // --- the entries of one event --------------------------------------------------------------

  // The block made these entries, the last ever, and sent each to its owner if it was to. A
  // BRCB's EntryID is then that of the newest.
  ghost predicate Makes(b: Block, r: Block, es: seq<Entry>, sent: bool) {
    && r.store.entries == b.store.entries + es
    && (if sent then SentFrom(b.store, r.store, b.hold.owner, es) else r.store.reports == b.store.reports)
    && r.store.entryId == (if es != [] && b.fixed.buffered then |r.store.entries| else b.store.entryId)
  }

  // The entry of what is gathered.
  function Waiting(b: Block): seq<Entry> {
    match b.gathering.pending
    case None => []
    case Some(g) => [MakeEntry(|b.store.entries| + 1, g.width, g.items)]
  }

  function Whole(b: Block, reason: Reason, values: seq<AccessResult>): Entry {
    MakeEntry(|b.store.entries| + |Waiting(b)| + 1, b.config.members,
              map i: nat | 0 <= i < |values| :: Item(reason, values[i]))
  }

  lemma EmitMakes(b: Block, width: nat, items: Change)
    requires Inv(b)
    ensures Typed(b) && Makes(b, Emit(b, width, items), [MakeEntry(|b.store.entries| + 1, width, items)], b.enabled)
    ensures var r := Emit(b, width, items); r == b.(store := r.store)
  {
    hide GatherInv, StoreInv, Emitted, MakeEntry;
    IsTyped(b);
    EmitKeeps(b.fixed, b.store, b.enabled, b.hold.owner, width, items);
    NextId(b);
    SetsEntryId(b.fixed, b.store, b.enabled, b.hold.owner, width, items);
  }

  lemma NextId(b: Block)
    requires Inv(b)
    ensures b.store.next == |b.store.entries| + 1
  {
    hide HoldInv, GatherInv, Bounded, Marked, Logged, TotalSize;
  }

  lemma SetsEntryId(f: Fixed, s: Store, enabled: bool, to: Option<nat>, width: nat, items: Change)
    requires f.modulo > 0
    ensures Emitted(f, s, enabled, to, width, items).entryId == if f.buffered then s.next else s.entryId
  {
    hide Sorted, EncodeResults, ValuesOf, ReasonsOf;
    TrimsOnly(f, Appended(Made(s, width, items), MakeEntry(s.next, width, items)));
  }

  lemma {:induction false} TrimsOnly(f: Fixed, s: Store)
    ensures Trimmed(f, s).entryId == s.entryId
    decreases |s.buffer|
  {
    if TooMuch(f, s) {
      TrimsOnly(f, DropOldest(s));
    }
  }

  lemma MakesNone(b: Block, sent: bool)
    ensures Makes(b, b, [], sent)
  {
  }

  lemma MakesAlso(b: Block, c: Block, r: Block, es: seq<Entry>, more: seq<Entry>, sent: bool)
    requires Makes(b, c, es, sent) && Makes(c, r, more, sent) && c.hold == b.hold && c.fixed == b.fixed
    ensures Makes(b, r, es + more, sent)
  {
    if sent {
      forall i | |b.store.reports| <= i < |r.store.reports|
        ensures r.store.reports[i].to == b.hold.owner && r.store.reports[i].entry == (es + more)[i - |b.store.reports|]
      {
        if i < |c.store.reports| {
          assert r.store.reports[i] == c.store.reports[i];
        }
      }
      assert r.store.reports[..|b.store.reports|] == c.store.reports[..|b.store.reports|];
    }
  }

  lemma FlushMakes(b: Block)
    requires Inv(b)
    ensures Typed(b) && Makes(b, Flush(b), Waiting(b), b.enabled)
    ensures var r := Flush(b); r.gathering.pending.None? && r == b.(store := r.store, gathering := r.gathering)
  {
    hide Inv, Makes, Emitted, MakeEntry;
    IsTyped(b);
    OpenPending(b);
    PendingHolds(b.gathering);
    MakesNone(b, b.enabled);
    if b.gathering.pending.Some? {
      var g := b.gathering.pending.value;
      EmitMakes(b, g.width, g.items);
      SameMaking(b, Emit(b, g.width, g.items), Flush(b), Waiting(b), b.enabled);
    }
  }

  lemma SameMaking(b: Block, c: Block, r: Block, es: seq<Entry>, sent: bool)
    requires Makes(b, c, es, sent) && r.store == c.store
    ensures Makes(b, r, es, sent)
  {
  }

  // --- a change ------------------------------------------------------------------------------

  // A block takes up changes while it is enabled; a BRCB, ever since it was first enabled.
  predicate Listens(b: Block) {
    b.enabled || (b.fixed.buffered && b.everEnabled)
  }

  predicate Gathers(b: Block) {
    b.enabled && b.config.bufTm > 0
  }

  // Some member changed that is gathered already.
  predicate Again(b: Block, items: Change) {
    b.gathering.pending.Some? && exists i :: i in items && i in b.gathering.pending.value.items
  }

  // A change that is taken up is noted. Without BufTm it makes an entry of its own; with it, it
  // joins what is gathered, unless one of its members is there already: then what is gathered
  // makes an entry, and the change is gathered by itself.
  ghost predicate TakesUp(b: Block, r: Block, items: Change) {
    && r.gathering.notes == b.gathering.notes + [items]
    && (if !Gathers(b) then
          && Makes(b, r, [MakeEntry(|b.store.entries| + 1, b.config.members, items)], b.enabled)
          && r.gathering.pending == b.gathering.pending
        else if Again(b, items) then
          && Makes(b, r, Waiting(b), true)
          && r.gathering.pending == Some(Gathered(b.gathering.serials, b.config.members, items))
        else r.store == b.store && r.gathering.pending == Some(With(b, items)))
  }

  lemma Changing(b: Block, items: Change)
    requires Inv(b) && Typed(b) && Below(items, b.config.members)
    ensures var r := Step(b, AChange(items));
            && r == b.(store := r.store, gathering := r.gathering)
            && (if Listens(b) && items != map[] then TakesUp(b, r, items) else r == b)
  {
    hide Inv, Add, Makes, MakeEntry, Waiting, Below, Again, Gathers, With, Write, Close, Lapse, GatherTimer,
         IntegrityTimer;
    if Listens(b) && items != map[] {
      AddInv(b, items);
      AddHold(b, items);
      if !Gathers(b) {
        AloneMakes(b, items);
      } else if Again(b, items) {
        ChangeComesAgain(b, items);
      } else {
        ChangeJoins(b, items);
      }
    }
  }

  // What is gathered, with one more change.
  function With(b: Block, items: Change): Gathered {
    match b.gathering.pending
    case None => Gathered(b.gathering.serials, b.config.members, items)
    case Some(g) => Gathered(g.serial, if g.width >= b.config.members then g.width else b.config.members, g.items + items)
  }

  lemma AloneMakes(b: Block, items: Change)
    requires Inv(b) && !Gathers(b)
    ensures Typed(b)
    ensures Makes(b, Add(b, items), [MakeEntry(|b.store.entries| + 1, b.config.members, items)], b.enabled)
    ensures Add(b, items).gathering.pending == b.gathering.pending
  {
    hide Inv, Makes, Emitted, MakeEntry;
    IsTyped(b);
    EmitMakes(b, b.config.members, items);
    SameMaking(b, Emit(b, b.config.members, items), Add(b, items),
               [MakeEntry(|b.store.entries| + 1, b.config.members, items)], b.enabled);
  }

  lemma ChangeJoins(b: Block, items: Change)
    requires Inv(b) && Gathers(b) && !Again(b, items)
    ensures Typed(b) && Add(b, items).store == b.store && Add(b, items).gathering.pending == Some(With(b, items))
  {
    hide Inv, Flush, Emitted;
    IsTyped(b);
    assert map[] + items == items;
  }

  lemma ChangeComesAgain(b: Block, items: Change)
    requires Inv(b) && Gathers(b) && Again(b, items)
    ensures Typed(b) && Makes(b, Add(b, items), Waiting(b), true)
    ensures Add(b, items).gathering.pending == Some(Gathered(b.gathering.serials, b.config.members, items))
  {
    hide Inv, Emitted, Makes, Waiting, Flush;
    IsTyped(b);
    FlushMakes(b);
    FlushInv(b);
    var c := Flush(b);
    FlushSerials(b);
    assert Add(b, items) == Add(c, items);
    ChangeJoins(c, items);
    SameMaking(b, c, Add(b, items), Waiting(b), true);
  }

  lemma FlushSerials(b: Block)
    requires Typed(b)
    ensures Flush(b).gathering.serials == b.gathering.serials
  {
    hide Emitted;
  }

  // --- timers, interrogation and the end of an enabling --------------------------------------

  // When BufTm is over what is gathered makes an entry; a timer of another gathering does
  // nothing.
  lemma TimeIsUp(b: Block, serial: nat)
    requires Inv(b)
    ensures Typed(b)
    ensures var r := Step(b, AGatherTimer(serial));
            if b.gathering.pending.Some? && b.gathering.pending.value.serial == serial then
              && r == b.(store := r.store, gathering := r.gathering) && r.gathering.notes == b.gathering.notes
              && r.gathering.pending.None? && Makes(b, r, Waiting(b), b.enabled)
            else r == b
  {
    hide Inv, Makes, Flush, Waiting;
    FlushMakes(b);
    FlushInv(b);
  }

  // What is gathered makes an entry, then every member does, with its value of now.
  predicate IsWhole(b: Block, r: Block) {
    && r == b.(store := r.store, gathering := r.gathering, integrityDue := r.integrityDue)
    && r.gathering.pending.None? && r.gathering.notes == b.gathering.notes
  }

  lemma AllIsReported(b: Block, reason: Reason, values: seq<AccessResult>)
    requires Inv(b)
    ensures Typed(b)
    ensures var r := ReportAll(Flush(b), reason, values);
            && Makes(b, r, Waiting(b) + [Whole(b, reason, values)], b.enabled)
            && IsWhole(b, r) && r.integrityDue == b.integrityDue
  {
    hide Inv, Makes, Flush, Emitted, MakeEntry;
    FlushMakes(b);
    FlushInv(b);
    var c := Flush(b);
    var items := EveryMember(reason, values);
    EmitMakes(c, b.config.members, items);
    EntriesAfter(b, c, Waiting(b), b.enabled);
    MakesAlso(b, c, Emit(c, b.config.members, items), Waiting(b), [Whole(b, reason, values)], b.enabled);
  }

  lemma EntriesAfter(b: Block, c: Block, es: seq<Entry>, sent: bool)
    requires Makes(b, c, es, sent)
    ensures |c.store.entries| == |b.store.entries| + |es|
  {
  }

  // A general interrogation is answered when the block is enabled and TrgOps asks for it; it
  // is granted, and does nothing, in every other case.
  lemma Interrogating(b: Block, c: Client, on: bool, values: seq<AccessResult>, now: int)
    requires Inv(b) && Write(b, c, Gi(on, values), now).1 == Done
    ensures Typed(b)
    ensures var r := Step(b, AWrite(c, Gi(on, values), now));
            if on && b.enabled && b.config.wantsGi then
              && Makes(b, r, Waiting(b) + [Whole(b, Reason(false, false, false, false, true, false), values)], true)
              && IsWhole(b, r) && r.integrityDue == b.integrityDue
            else r == b
  {
    hide Inv, Makes, Flush, ReportAll, Waiting, Whole;
    AllIsReported(b, GENERAL_INTERROGATION, values);
  }

  // The integrity period, of the timer set last alone: everything is reported, and the next
  // period begins if there is to be one.
  lemma PeriodIsOver(b: Block, due: int, values: seq<AccessResult>, now: int)
    requires Inv(b)
    ensures Typed(b)
    ensures var r := Step(b, AnIntegrityTimer(due, values, now));
            if b.enabled && b.integrityDue == Some(due) then
              && Makes(b, r, Waiting(b) + [Whole(b, Reason(false, false, false, true, false, false), values)], true)
              && IsWhole(b, r)
              && r.integrityDue == (if b.config.intgPd > 0 && b.config.wantsIntegrity then Some(now + b.config.intgPd)
                                    else Some(due))
            else r == b
  {
    hide Inv, Makes, Flush, ReportAll, Waiting, Whole;
    AllIsReported(b, INTEGRITY, values);
    if b.enabled && b.integrityDue == Some(due) {
      var r := Step(b, AnIntegrityTimer(due, values, now));
      SameMaking(b, ReportAll(Flush(b), INTEGRITY, values), r,
                 Waiting(b) + [Whole(b, Reason(false, false, false, true, false, false), values)], true);
    }
  }

  // A block that is disabled makes an entry of what is gathered, and does not send it.
  lemma Disabling(b: Block, c: Client, now: int)
    requires Inv(b) && Write(b, c, RptEna(false), now).1 == Done
    ensures Typed(b)
    ensures var r := Step(b, AWrite(c, RptEna(false), now));
            if b.enabled then
              && Makes(b, r, Waiting(b), false) && r.gathering.pending.None? && r.gathering.notes == b.gathering.notes
              && r == b.(enabled := false, integrityDue := None, store := r.store, gathering := r.gathering)
            else r == b
  {
    hide Inv, Makes, Flush, Waiting, Step, Write;
    IsTyped(b);
    DisablesBy(b, c, now);
    if b.enabled {
      var d := b.(enabled := false);
      DisabledInv(b);
      FlushMakes(d);
      FlushInv(d);
      FromDisabled(b, d, Flush(d), Step(b, AWrite(c, RptEna(false), now)));
    }
  }

  lemma DisablesBy(b: Block, c: Client, now: int)
    requires Typed(b) && Write(b, c, RptEna(false), now).1 == Done
    ensures Step(b, AWrite(c, RptEna(false), now))
            == if b.enabled then Flush(b.(enabled := false)).(integrityDue := None) else b
  {
    hide Flush, SentAll, AboveIn;
  }

  lemma DisabledInv(b: Block)
    requires Inv(b)
    ensures Inv(b.(enabled := false))
  {
    hide StoreInv, GatherInv;
  }

  lemma FromDisabled(b: Block, d: Block, f: Block, r: Block)
    requires d == b.(enabled := false) && Makes(d, f, Waiting(d), false) && r.store == f.store
    ensures Makes(b, r, Waiting(b), false)
  {
  }

  // --- over whole runs -----------------------------------------------------------------------

  // The changes the events bring a block, of those it takes up.
  function Noted(b: Block, e: Event): seq<Change> {
    if e.AChange? && Listens(b) && e.items != map[] then [e.items] else []
  }

  function Heard(b: Block, es: seq<Event>): seq<Change>
    requires Typed(b)
  {
    if es == [] then [] else Heard(b, es[..|es| - 1]) + Noted(Run(b, es[..|es| - 1]), es[|es| - 1])
  }

  lemma WriteNotes(b: Block, c: Client, a: Attribute, now: int)
    requires Inv(b)
    ensures Typed(b) && Step(b, AWrite(c, a, now)).gathering.notes == b.gathering.notes
  {
    hide Inv, Makes, Waiting, Whole, Step, Write;
    IsTyped(b);
    if !Write(b, c, a, now).1.Done? || !(a.Gi? || a == RptEna(false)) {
      WriteGathers(b, c, a, now);
    }
    if Write(b, c, a, now).1.Done? {
      match a
      case Gi(on, values) => Interrogating(b, c, on, values, now);
      case RptEna(on) => if !on { Disabling(b, c, now); }
      case _ =>
    }
  }

  // Only an interrogation and the end of an enabling concern what is gathered.
  lemma WriteGathers(b: Block, c: Client, a: Attribute, now: int)
    requires Typed(b) && (!Write(b, c, a, now).1.Done? || !(a.Gi? || a == RptEna(false)))
    ensures Step(b, AWrite(c, a, now)).gathering == b.gathering
  {
    hide Flush, SentAll, AboveIn, ReportAll;
  }

  // Nothing but a change is noted, and every change a block takes up is.
  lemma StepNotes(b: Block, e: Event)
    requires Inv(b) && Possible(b, e)
    ensures Typed(b) && Step(b, e).gathering.notes == b.gathering.notes + Noted(b, e)
  {
    IsTyped(b);
    hide Inv, Makes, Waiting, Write, Changed, GatherTimer, IntegrityTimer;
    match e
    case AWrite(c, a, now) => WriteNotes(b, c, a, now);
    case AClose(id, now) =>
    case ALapse(due) =>
    case AChange(items) => Changing(b, items);
    case AGatherTimer(serial) => TimeIsUp(b, serial);
    case AnIntegrityTimer(due, values, now) => PeriodIsOver(b, due, values, now);
  }

  lemma {:induction false} RunNotes(b: Block, es: seq<Event>)
    requires Inv(b) && Typed(b) && PossibleRun(b, es)
    ensures Run(b, es).gathering.notes == b.gathering.notes + Heard(b, es)
  {
    hide Inv, Step, Noted;
    if es == [] {
      assert b.gathering.notes + [] == b.gathering.notes;
    } else {
      var most := es[..|es| - 1];
      RunNotes(b, most);
      RunInv(b, most);
      StepNotes(Run(b, most), es[|es| - 1]);
    }
  }

  // What the changes say of one member, in their order.
  function Of(notes: seq<Change>, i: nat): seq<Item> {
    if notes == [] then []
    else
      var (init, last) := (notes[..|notes| - 1], notes[|notes| - 1]);
      if i in last then Of(init, i) + [last[i]] else Of(init, i)
  }

  // What the entries made of changes say of it, an entry once at most.
  function InEntries(groups: seq<Group>, i: nat): seq<Item> {
    if groups == [] then []
    else
      var (init, last) := (groups[..|groups| - 1], Union(groups[|groups| - 1].notes));
      if i in last then InEntries(init, i) + [last[i]] else InEntries(init, i)
  }

  function StillGathered(g: Gathering, i: nat): seq<Item> {
    if g.pending.Some? && i in g.pending.value.items then [g.pending.value.items[i]] else []
  }

  lemma {:induction false} OfConcat(a: seq<Change>, b: seq<Change>, i: nat)
    ensures Of(a + b, i) == Of(a, i) + Of(b, i)
  {
    if b == [] {
      assert a + b == a;
    } else {
      var n := |b| - 1;
      assert (a + b)[..|a + b| - 1] == a + b[..n];
      OfConcat(a, b[..n], i);
    }
  }

  // Changes that share no member say at most one thing of each, and together what their union
  // says.
  lemma {:induction false} OfApart(notes: seq<Change>, i: nat)
    requires Apart(notes)
    ensures Of(notes, i) == if i in Union(notes) then [Union(notes)[i]] else []
  {
    if notes != [] {
      var n := |notes| - 1;
      OfApart(notes[..n], i);
      if i in notes[n] && i in Union(notes[..n]) {
        var k := WhereFrom(notes[..n], i);
        assert Overlap(notes[k], notes[n]);
      }
    }
  }

  lemma {:induction false} WhereFrom(notes: seq<Change>, i: nat) returns (k: nat)
    requires i in Union(notes)
    ensures k < |notes| && i in notes[k]
  {
    var n := |notes| - 1;
    if i in notes[n] {
      k := n;
    } else {
      k := WhereFrom(notes[..n], i);
    }
  }

  lemma {:induction false} OfFlat(groups: seq<Group>, i: nat)
    requires forall k :: 0 <= k < |groups| ==> Apart(groups[k].notes)
    ensures Of(Flat(groups), i) == InEntries(groups, i)
  {
    if groups != [] {
      var n := |groups| - 1;
      OfFlat(groups[..n], i);
      OfConcat(Flat(groups[..n]), groups[n].notes, i);
      assert Apart(groups[n].notes);
      OfApart(groups[n].notes, i);
    }
  }

  // Without one of them, wherever it stands.
  lemma OfWithout(b: seq<Change>, k: nat, i: nat)
    requires k < |b|
    ensures multiset(Of(b, i)) == multiset(Of(b[..k] + b[k + 1..], i)) + multiset(Of([b[k]], i))
  {
    hide Of;
    OfConcat(b[..k], b[k + 1..], i);
    OfConcat(b[..k], [b[k]], i);
    OfConcat(b[..k] + [b[k]], b[k + 1..], i);
    assert b == b[..k] + [b[k]] + b[k + 1..];
  }

  lemma BagWithout(b: seq<Change>, k: nat)
    requires k < |b|
    ensures multiset(b[..k] + b[k + 1..]) == multiset(b) - multiset{b[k]}
  {
    assert b == b[..k] + [b[k]] + b[k + 1..];
  }

  // The order of the changes does not matter to how often each thing is said.
  lemma {:induction false} OfPermuted(a: seq<Change>, b: seq<Change>, i: nat)
    requires multiset(a) == multiset(b)
    ensures multiset(Of(a, i)) == multiset(Of(b, i))
    decreases |a|
  {
    if a == [] {
      assert |multiset(b)| == 0;
    } else {
      hide Of;
      var n := |a| - 1;
      assert a[n] in multiset(b);
      var k :| 0 <= k < |b| && b[k] == a[n];
      OfWithout(a, n, i);
      OfWithout(b, k, i);
      BagWithout(a, n);
      BagWithout(b, k);
      OfPermuted(a[..n] + a[n + 1..], b[..k] + b[k + 1..], i);
    }
  }

  // Whatever happened, each thing the changes said of a member, its reason and its value, is
  // said by exactly one entry made of changes or is still gathered; and the entries say nothing
  // else.
  lemma EveryMemberLands(f: Fixed, config: Config, resvTms: int, es: seq<Event>, i: nat)
    requires TypedFixed(f) && PossibleRun(Fresh(f, config, resvTms), es)
    ensures var b := Fresh(f, config, resvTms);
            var g := Run(b, es).gathering;
            && multiset(Of(Heard(b, es), i)) == multiset(InEntries(g.groups, i)) + multiset(StillGathered(g, i))
            && GroupsMade(Run(b, es).store.entries, g.groups)
  {
    var b := Fresh(f, config, resvTms);
    FreshInv(f, config, resvTms);
    hide Inv, Run, Heard, Apart, Union, Flat, Of, InEntries;
    RunInv(b, es);
    RunNotes(b, es);
    assert [] + Heard(b, es) == Heard(b, es);
    MembersAreKept(Run(b, es), i);
  }

  lemma MembersAreKept(b: Block, i: nat)
    requires Inv(b)
    ensures var g := b.gathering;
            && multiset(Of(g.notes, i)) == multiset(InEntries(g.groups, i)) + multiset(StillGathered(g, i))
            && GroupsMade(b.store.entries, g.groups)
  {
    hide StoreInv, HoldInv, Apart, Union, Flat, Of, InEntries, MakeEntry;
    var g := b.gathering;
    OfPermuted(g.notes, Flat(g.groups) + g.open, i);
    OfConcat(Flat(g.groups), g.open, i);
    assert forall k :: 0 <= k < |g.groups| ==> IsMade(b.store.entries, g.groups[k]);
    OfFlat(g.groups, i);
    NothingOpen(g, i);
  }

  lemma NothingOpen(g: Gathering, i: nat)
    requires PendingIsOpen(g)
    ensures Of(g.open, i) == StillGathered(g, i)
  {
    if g.pending.Some? {
      OfApart(g.open, i);
    }
  }
}
