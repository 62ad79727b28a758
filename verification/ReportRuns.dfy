/**
 Whole runs of a report control block: what every reachable state keeps, what becomes of the
 changes, what an enabling client is sent, and how long a block stays reserved.
 */
module ReportRuns {
  import opened Octets
  import opened ReportWire
  import opened Reporting
  import opened ReportBlock

  // --- invariants over every run -----------------------------------------------------------

  lemma EntryInv(b: Block, width: nat, items: Change)
    requires Inv(b)
    ensures Typed(b) && Inv(Emit(b, width, items))
    ensures InOrder(b) ==> InOrder(Emit(b, width, items))
  {
    hide StoreInv, HoldInv, GroupsMade, Emitted, Flat, PendingIsOpen, MakeEntry;
    TypedInv(b);
    EmitInv(b, width, items);
    GroupsStay(b.store.entries, [MakeEntry(b.store.next, width, items)], b.gathering.groups);
  }

  lemma ReportAllInv(b: Block, reason: Reason, values: seq<AccessResult>)
    requires Inv(b)
    ensures Typed(b) && Inv(ReportAll(Flush(b), reason, values))
    ensures InOrder(b) ==> InOrder(ReportAll(Flush(b), reason, values))
  {
    hide Inv, InOrder;
    assert Typed(b) by { IsTyped(b); }
    FlushInv(b);
    EntryInv(Flush(b), b.config.members, EveryMember(reason, values));
  }

  lemma IsTyped(b: Block)
    requires Inv(b)
    ensures Typed(b)
  {
    hide HoldInv, GatherInv;
  }

  // The reservation alone changes.
  lemma HoldChanges(b: Block, c: Block)
    requires Inv(b) && c == b.(hold := c.hold, enabled := c.enabled, everEnabled := c.everEnabled,
                               integrityDue := c.integrityDue, config := c.config)
    requires HoldInv(c)
    ensures Inv(c)
  {
    hide StoreInv, GatherInv, HoldInv;
  }

  lemma TailIds(f: Fixed, s: Store, k: nat)
    requires StoreInv(f, s) && k <= |s.buffer|
    ensures var es := s.buffer[k..]; forall i :: 0 <= i < |es| ==> 1 <= es[i].id <= |s.entries|
  {
    hide TotalSize, Bounded, Marked, Logged;
    var es := s.buffer[k..];
    forall i | 0 <= i < |es|
      ensures 1 <= es[i].id <= |s.entries|
    {
      KeptId(s, k + i);
    }
  }

  lemma BufferFits(f: Fixed, s: Store)
    requires StoreInv(f, s)
    ensures |s.buffer| <= |s.entries|
  {
    hide TotalSize, Bounded, Marked, Logged;
  }

  lemma SendsAbove(f: Fixed, s: Store, to: Option<nat>)
    requires StoreInv(f, s)
    ensures |s.buffer| <= |s.entries| && f.modulo > 0
    ensures var t := SentAll(f, s, to, AboveIn(s.buffer, s.entryId));
            && StoreInv(f, t) && t.entries == s.entries && t.buffer == s.buffer
            && SentFrom(s, t, to, s.buffer[FirstAbove(s, s.entryId)..])
  {
    hide Bounded, Marked, Logged, Tail, SentAll, SentFrom, AboveIn;
    BufferFits(f, s);
    AboveIsTail(s, s.entryId, |s.buffer|);
    assert s.buffer[..|s.buffer|] == s.buffer;
    var es := s.buffer[FirstAbove(s, s.entryId)..];
    assert AboveIn(s.buffer, s.entryId) == es;
    TailIds(f, s, FirstAbove(s, s.entryId));
    SendAllKeeps(f, s, to, es);
  }

  lemma SomeoneReceives(b: Block, t: Store, to: Option<nat>, es: seq<Entry>)
    requires HoldInv(b) && to.Some? && SentFrom(b.store, t, to, es)
    ensures forall i :: 0 <= i < |t.reports| ==> t.reports[i].to.Some?
  {
    forall i | 0 <= i < |t.reports|
      ensures t.reports[i].to.Some?
    {
      if i < |b.store.reports| {
        assert t.reports[i] == t.reports[..|b.store.reports|][i];
      }
    }
  }

  // What enabling sends: what is kept above EntryID.
  function Replayed(b: Block): seq<Entry>
    requires |b.store.buffer| <= |b.store.entries|
  {
    if b.fixed.buffered then b.store.buffer[FirstAbove(b.store, b.store.entryId)..] else []
  }

  lemma EnabledShape(b: Block, c: Client, now: int)
    requires Typed(b)
    ensures var r := Enabled(Taken(b, c).(enabled := true), now);
            && r == b.(enabled := true, everEnabled := true, hold := Taken(b, c).hold, store := r.store,
                       integrityDue := r.integrityDue)
            && r.store == if b.fixed.buffered
                          then SentAll(b.fixed, b.store, Some(c.id), AboveIn(b.store.buffer, b.store.entryId)) else b.store
  {
    hide SentAll, AboveIn;
  }

  lemma EnabledHold(b: Block, c: Client, r: Block)
    requires HoldInv(b) && Typed(b) && r.hold == Taken(b, c).hold && r.fixed == b.fixed && r.everEnabled
    requires forall i :: 0 <= i < |r.store.reports| ==> r.store.reports[i].to.Some?
    ensures HoldInv(r) && r.hold.owner == Some(c.id)
  {
  }

  lemma EnabledInv(b: Block, c: Client, now: int)
    requires Inv(b) && !b.enabled
    ensures Typed(b) && |b.store.buffer| <= |b.store.entries|
    ensures var r := Enabled(Taken(b, c).(enabled := true), now);
            && Inv(r) && r.enabled && r.hold.owner == Some(c.id) && r.store.entries == b.store.entries
            && (InOrder(b) ==> InOrder(r))
            && SentFrom(b.store, r.store, Some(c.id), Replayed(b))
  {
    IsTyped(b);
    EnabledShape(b, c, now);
    hide GatherInv, StoreInv, HoldInv, SentFrom, SentAll, AboveIn, Enabled, Taken, Flat;
    SendsAbove(b.fixed, b.store, Some(c.id));
    SendsNone(b.store, Some(c.id));
    var r := Enabled(Taken(b, c).(enabled := true), now);
    SomeoneReceives(b, r.store, Some(c.id), Replayed(b));
    EnabledHold(b, c, r);
  }

  lemma WriteInv(b: Block, c: Client, a: Attribute, now: int)
    requires Inv(b) && Possible(b, AWrite(c, a, now))
    ensures Typed(b) && Inv(Write(b, c, a, now).0)
    ensures InOrder(b) ==> InOrder(Write(b, c, a, now).0)
  {
    hide GatherInv, StoreInv, Flat, Flush, ReportAll, Enabled;
    IsTyped(b);
    var w := Write(b, c, a, now);
    if w.1.Done? {
      match a
      case Resv(on) => HoldChanges(b, w.0);
      case ResvTms(v) => HoldChanges(b, w.0);
      case PurgeBuf(on) => PurgeInv(b);
      case Gi(on, values) => ReportAllInv(b, GENERAL_INTERROGATION, values);
      case RptEna(on) =>
        if on && !b.enabled {
          EnabledInv(b, c, now);
        } else if !on && b.enabled {
          DisableInv(b);
        }
      case EntryId(v) => EntryIdInv(b, v);
      case Configure(config) => HoldChanges(b, w.0);
      case ReadOnly =>
    }
  }

  lemma PurgeInv(b: Block)
    requires Inv(b)
    ensures Inv(b.(store := Purged(b.store)))
  {
    hide GatherInv, Told;
    TraceGrows(b.store.trace, PurgedAll);
  }

  lemma EntryIdInv(b: Block, v: nat)
    requires Inv(b)
    ensures Inv(b.(store := b.store.(entryId := v)))
  {
    hide GatherInv, TotalSize;
  }

  // A block disabled by its client: what is gathered makes an entry that is not sent.
  lemma DisableInv(b: Block)
    requires Inv(b) && b.enabled
    ensures Typed(b)
    ensures var r := Flush(b.(enabled := false)).(integrityDue := None);
            Inv(r) && (InOrder(b) ==> InOrder(r)) && r.store.reports == b.store.reports
  {
    hide StoreInv, Flat, Union, GroupsMade, PendingIsOpen, Emitted, Flush;
    IsTyped(b);
    var c := b.(enabled := false);
    HoldChanges(b, c);
    FlushInv(c);
    NotSent(c);
    if InOrder(b) {
      FlushOrder(c);
    }
  }

  lemma NotSent(c: Block)
    requires Inv(c) && !c.enabled
    ensures Typed(c) && Flush(c).store.reports == c.store.reports
  {
    hide StoreInv, HoldInv, GatherInv, Emitted;
    IsTyped(c);
    if c.gathering.pending.Some? {
      EmitKeeps(c.fixed, c.store, false, c.hold.owner, c.gathering.pending.value.width, c.gathering.pending.value.items);
    }
  }

  // Flushing puts the pending notifications after those of the entries made.
  lemma FlushOrder(c: Block)
    requires Inv(c) && Flat(c.gathering.groups) + c.gathering.open == c.gathering.notes
    ensures Typed(c) && InOrder(Flush(c))
  {
    hide Inv, Emitted, Flat;
    IsTyped(c);
    OpenPending(c);
    PendingHolds(c.gathering);
    if c.gathering.pending.Some? {
      FlatSnoc(c.gathering.groups, Group(c.store.next, c.gathering.pending.value.width, c.gathering.open));
    }
  }

  lemma OpenPending(b: Block)
    requires Inv(b)
    ensures PendingIsOpen(b.gathering)
  {
    hide StoreInv, HoldInv, PendingIsOpen;
  }

  lemma PendingHolds(g: Gathering)
    requires PendingIsOpen(g)
    ensures if g.pending.Some? then g.pending.value.items != map[] else g.open == []
  {
    hide Apart, Union;
  }

  // A client that goes with changes still gathered leaves them behind.
  predicate LeavesGathering(b: Block, e: Event) {
    e.AClose? && b.hold.owner == Some(e.id) && b.gathering.pending.Some?
  }

  lemma CloseInv(b: Block, id: nat, now: int)
    requires Inv(b)
    ensures Inv(Close(b, id, now))
    ensures InOrder(b) ==> (InOrder(Close(b, id, now)) <==> !LeavesGathering(b, AClose(id, now)))
  {
    hide GatherInv, StoreInv, Flat;
    if b.hold.owner == Some(id) {
      HoldChanges(b, Close(b, id, now));
    }
  }

  lemma ChangedInv(b: Block, items: Change)
    requires Inv(b) && Below(items, b.config.members)
    ensures Typed(b) && Inv(Changed(b, items)) && (InOrder(b) ==> InOrder(Changed(b, items)))
  {
    hide Inv, InOrder, Add, Below;
    IsTyped(b);
    if items != map[] {
      AddInv(b, items);
    }
  }

  lemma GatherTimerInv(b: Block, serial: nat)
    requires Inv(b)
    ensures Typed(b) && Inv(GatherTimer(b, serial)) && (InOrder(b) ==> InOrder(GatherTimer(b, serial)))
  {
    hide Inv, InOrder, Flush;
    IsTyped(b);
    FlushInv(b);
  }

  // Every step keeps the invariant; entries stay in the notifications' order unless a client
  // goes and leaves changes gathered.
  lemma StepInv(b: Block, e: Event)
    requires Inv(b) && Possible(b, e)
    ensures Typed(b) && Inv(Step(b, e))
    ensures InOrder(b) ==> (InOrder(Step(b, e)) <==> !LeavesGathering(b, e))
  {
    hide Inv, InOrder, Write, Close, Lapse, Changed, GatherTimer, IntegrityTimer;
    IsTyped(b);
    match e
    case AWrite(c, a, now) => WriteInv(b, c, a, now);
    case AClose(id, now) => CloseInv(b, id, now);
    case ALapse(due) => LapseInv(b, due);
    case AChange(items) => ChangedInv(b, items);
    case AGatherTimer(serial) => GatherTimerInv(b, serial);
    case AnIntegrityTimer(due, values, now) => IntegrityInv(b, due, values, now);
  }

  lemma LapseInv(b: Block, due: int)
    requires Inv(b)
    ensures Inv(Lapse(b, due)) && (InOrder(b) ==> InOrder(Lapse(b, due)))
  {
    hide GatherInv, StoreInv, Flat;
    HoldChanges(b, Lapse(b, due));
  }

  lemma IntegrityInv(b: Block, due: int, values: seq<AccessResult>, now: int)
    requires Inv(b)
    ensures Typed(b) && Inv(IntegrityTimer(b, due, values, now))
    ensures InOrder(b) ==> InOrder(IntegrityTimer(b, due, values, now))
  {
    IsTyped(b);
    hide GatherInv, StoreInv, Flat, Flush, ReportAll, HoldInv;
    if b.enabled && b.integrityDue == Some(due) {
      ReportAllInv(b, INTEGRITY, values);
      var r := ReportAll(Flush(b), INTEGRITY, values);
      DueChanges(r, IntegrityTimer(b, due, values, now));
    }
  }

  lemma DueChanges(b: Block, c: Block)
    requires Inv(b) && c == b.(integrityDue := c.integrityDue)
    ensures Inv(c) && (InOrder(b) ==> InOrder(c))
  {
    hide GatherInv, StoreInv, Flat;
  }

  ghost predicate PossibleRun(b: Block, es: seq<Event>)
    requires Typed(b)
  {
    es == [] || (PossibleRun(b, es[..|es| - 1]) && Typed(Run(b, es[..|es| - 1]))
                 && Possible(Run(b, es[..|es| - 1]), es[|es| - 1]))
  }

  function Run(b: Block, es: seq<Event>): (r: Block)
    requires Typed(b)
    ensures r.fixed == b.fixed
  {
    if es == [] then b
    else
      var before := Run(b, es[..|es| - 1]);
      StepFixed(before, es[|es| - 1]);
      Step(before, es[|es| - 1])
  }

  lemma StepFixed(b: Block, e: Event)
    requires Typed(b)
    ensures Step(b, e).fixed == b.fixed
  {
    hide SentAll, Emitted, Overlap;
    if e.AChange? {
      AddFixed(b, e.items);
    }
  }

  lemma {:induction false} AddFixed(b: Block, items: Change)
    requires Typed(b)
    ensures Add(b, items).fixed == b.fixed
    decreases if b.gathering.pending.Some? && Overlap(items, b.gathering.pending.value.items) then 1 else 0
  {
    hide Emitted;
    if b.config.bufTm > 0 && b.enabled && Overlap(items, Begun(b).gathering.pending.value.items) {
      AddFixed(Flush(b), items);
    }
  }

  // No client goes with changes still gathered.
  ghost predicate NothingLeft(b: Block, es: seq<Event>)
    requires Typed(b)
  {
    es == [] || (NothingLeft(b, es[..|es| - 1]) && !LeavesGathering(Run(b, es[..|es| - 1]), es[|es| - 1]))
  }

  // In every reachable state a BRCB's buffer holds consecutive EntryIDs up to the newest,
  // within its bounds, BufOvfl means an unsent entry was dropped, and each notification is in
  // one entry or still gathered; in their order, when no client goes with changes gathered.
  lemma {:induction false} RunInv(b: Block, es: seq<Event>)
    requires Inv(b) && Typed(b) && PossibleRun(b, es)
    ensures Inv(Run(b, es))
    ensures InOrder(b) && NothingLeft(b, es) ==> InOrder(Run(b, es))
  {
    hide Inv, InOrder, Step;
    if es != [] {
      RunInv(b, es[..|es| - 1]);
      StepInv(Run(b, es[..|es| - 1]), es[|es| - 1]);
    }
  }

  lemma ReachableInv(f: Fixed, config: Config, resvTms: int, es: seq<Event>)
    requires TypedFixed(f) && PossibleRun(Fresh(f, config, resvTms), es)
    ensures Inv(Run(Fresh(f, config, resvTms), es))
    ensures NothingLeft(Fresh(f, config, resvTms), es) ==> InOrder(Run(Fresh(f, config, resvTms), es))
    ensures var s := Run(Fresh(f, config, resvTms), es).store; s.reports == ReportsIn(s.trace) && Told(s.trace)
  {
    hide Inv, InOrder, Told;
    FreshInv(f, config, resvTms);
    RunInv(Fresh(f, config, resvTms), es);
    InvTells(Run(Fresh(f, config, resvTms), es));
  }

  lemma InvTells(b: Block)
    requires Inv(b)
    ensures b.store.reports == ReportsIn(b.store.trace) && Told(b.store.trace)
  {
    hide HoldInv, GatherInv, Tail, Bounded, Marked, Told;
  }

  // --- changes -----------------------------------------------------------------------------

  lemma IndexesOf(id: nat, width: nat, items: Change)
    requires Below(items, width)
    ensures var e := MakeEntry(id, width, items);
            e.id == id && Ascending(e.indexes) && forall k: nat :: k in e.indexes <==> k in items
  {
    hide EncodeResults, Leaves;
    SortedIsExact(items.Keys, width);
  }

  lemma GroupIsMade(b: Block, i: nat)
    requires Inv(b) && i < |b.gathering.groups|
    ensures IsMade(b.store.entries, b.gathering.groups[i])
  {
    hide StoreInv, HoldInv, PendingIsOpen, MakeEntry, IsMade;
  }

  // Every notification of a group lands in its entry: each of its members there once, with
  // the reason and the value of that notification.
  lemma LandsOnce(b: Block, i: nat, j: nat, k: nat)
    requires Inv(b) && i < |b.gathering.groups| && j < |b.gathering.groups[i].notes| && k in b.gathering.groups[i].notes[j]
    ensures var g := b.gathering.groups[i];
            && 1 <= g.id <= |b.store.entries| && k in Union(g.notes)
            && var e := b.store.entries[g.id - 1];
               && e.id == g.id && Ascending(e.indexes) && k in e.indexes
               && e == MakeEntry(g.id, g.width, Union(g.notes)) && Union(g.notes)[k] == g.notes[j][k]
  {
    hide Inv, MakeEntry, Union, Apart;
    var g := b.gathering.groups[i];
    GroupIsMade(b, i);
    InUnion(g.notes, j);
    IndexesOf(g.id, g.width, Union(g.notes));
  }

  // A stale timer changes nothing: only the gathering it was set for is flushed.
  lemma StaleTimer(b: Block, serial: nat)
    requires Typed(b) && Inv(b)
    ensures b.gathering.pending.Some? && serial != b.gathering.pending.value.serial ==> GatherTimer(b, serial) == b
    ensures serial >= b.gathering.serials ==> GatherTimer(b, serial) == b
    ensures Begun(b).gathering.pending.value.serial < Begun(b).gathering.serials
    ensures b.gathering.pending.None? ==> Begun(b).gathering.pending.value.serial == b.gathering.serials
  {
    hide StoreInv, HoldInv, GroupsMade;
  }

  // That condition is needed: whenever the client of a BRCB goes with changes gathered, the
  // next change makes an entry at once, and the timer then puts the older changes after it.
  lemma OrderIsLost(b: Block, now: int, items: Change)
    requires Inv(b) && Typed(b) && InOrder(b) && b.fixed.buffered && b.gathering.pending.Some?
    requires Below(items, b.config.members) && items != map[]
    ensures b.enabled && b.hold.owner.Some?
    ensures var r := Step(Step(Step(b, AClose(b.hold.owner.value, now)), AChange(items)),
                          AGatherTimer(b.gathering.pending.value.serial));
            && r.gathering.notes == b.gathering.notes + [items]
            && Flat(r.gathering.groups) == Flat(b.gathering.groups) + [items] + b.gathering.open
            && r.gathering.pending.None? && r.gathering.open == []
  {
    hide Emitted, MakeEntry, Flat, StoreInv, GroupsMade, Union, Apart;
    var c := Close(b, b.hold.owner.value, now);
    var d := Changed(c, items);
    assert d == Alone(c, items);
    var g := Group(c.store.next, c.config.members, [items]);
    FlatSnoc(c.gathering.groups, g);
    var h := Group(d.store.next, d.gathering.pending.value.width, d.gathering.open);
    FlatSnoc(d.gathering.groups, h);
  }

  // Likewise for a URCB, whose next client takes BufTm away before it enables the block.
  lemma OrderIsLostUnbuffered(b: Block, next: Client, now: int, items: Change)
    requires Inv(b) && Typed(b) && InOrder(b) && !b.fixed.buffered && b.gathering.pending.Some?
    requires Below(items, b.config.members) && items != map[]
    ensures b.enabled && b.hold.owner.Some?
    ensures var left := Step(b, AClose(b.hold.owner.value, now));
            var taken := Step(Step(left, AWrite(next, Configure(b.config.(bufTm := 0)), now)), AWrite(next, RptEna(true), now));
            var r := Step(Step(taken, AChange(items)), AGatherTimer(b.gathering.pending.value.serial));
            && r.gathering.notes == b.gathering.notes + [items]
            && Flat(r.gathering.groups) == Flat(b.gathering.groups) + [items] + b.gathering.open
            && r.gathering.pending.None? && r.gathering.open == []
  {
    OpenPending(b);
    PendingHolds(b.gathering);
    HasOwner(b);
    TakenOver(b, next, now);
    hide Inv, Emitted, MakeEntry, Flat, Step, Write, Close, Below;
    var left := Step(b, AClose(b.hold.owner.value, now));
    var taken := Step(Step(left, AWrite(next, Configure(b.config.(bufTm := 0)), now)), AWrite(next, RptEna(true), now));
    Overtaken(taken, items);
  }

  lemma TakenOver(b: Block, next: Client, now: int)
    requires Typed(b) && !b.fixed.buffered && b.hold.owner.Some? && b.enabled
    ensures var left := Step(b, AClose(b.hold.owner.value, now));
            var r := Step(Step(left, AWrite(next, Configure(b.config.(bufTm := 0)), now)), AWrite(next, RptEna(true), now));
            r.enabled && r.config == b.config.(bufTm := 0) && r.gathering == b.gathering && r.fixed == b.fixed
  {
    hide SentAll, AboveIn, Flush;
  }

  // A change makes an entry of its own; what was gathered before it comes after it.
  lemma Overtaken(b: Block, items: Change)
    requires Typed(b) && b.enabled && b.config.bufTm == 0 && items != map[]
    requires b.gathering.pending.Some? && b.gathering.pending.value.items != map[]
    ensures var r := Step(Step(b, AChange(items)), AGatherTimer(b.gathering.pending.value.serial));
            && r.gathering.notes == b.gathering.notes + [items]
            && Flat(r.gathering.groups) == Flat(b.gathering.groups) + [items] + b.gathering.open
            && r.gathering.pending.None? && r.gathering.open == []
  {
    hide Emitted, MakeEntry, Flat, Write, Close, Lapse, IntegrityTimer;
    var d := Alone(b, items);
    FlatSnoc(b.gathering.groups, Group(b.store.next, b.config.members, [items]));
    FlatSnoc(d.gathering.groups, Group(d.store.next, d.gathering.pending.value.width, d.gathering.open));
  }

  lemma FlatSnoc(groups: seq<Group>, g: Group)
    ensures Flat(groups + [g]) == Flat(groups) + g.notes
  {
    assert (groups + [g])[..|groups|] == groups;
  }

  lemma RunSnoc(b: Block, es: seq<Event>, e: Event)
    requires Typed(b)
    ensures Run(b, es + [e]) == Step(Run(b, es), e)
    ensures PossibleRun(b, es + [e]) <==> PossibleRun(b, es) && Possible(Run(b, es), e)
    ensures Run(b, []) == b && PossibleRun(b, [])
  {
    hide Step;
    assert (es + [e])[..|es|] == es;
  }

  // --- what a client is sent ---------------------------------------------------------------

  // From `s` to `t`, each entry made was sent to `to`, once and in order.
  predicate Follows(s: Store, t: Store, to: Option<nat>) {
    && |s.entries| <= |t.entries| && t.entries[..|s.entries|] == s.entries
    && SentFrom(s, t, to, t.entries[|s.entries|..])
  }

  lemma FollowsSelf(s: Store, to: Option<nat>)
    ensures Follows(s, s, to)
  {
  }

  lemma FollowsOn(s: Store, t: Store, u: Store, to: Option<nat>)
    requires Follows(s, t, to) && Follows(t, u, to)
    ensures Follows(s, u, to)
  {
    forall i | 0 <= i < |s.entries|
      ensures u.entries[i] == s.entries[i]
    {
      assert u.entries[i] == t.entries[i] == s.entries[i];
    }
    forall i | |s.reports| <= i < |u.reports|
      ensures u.reports[i].to == to && u.reports[i].entry == u.entries[|s.entries|..][i - |s.reports|]
    {
      if i < |t.reports| {
        assert u.reports[i] == t.reports[i];
        assert u.entries[|s.entries| + i - |s.reports|] == t.entries[|s.entries| + i - |s.reports|];
      }
    }
    forall i | 0 <= i < |s.reports|
      ensures u.reports[i] == s.reports[i]
    {
      assert u.reports[i] == t.reports[i];
    }
  }

  lemma EmitFollows(b: Block, width: nat, items: Change)
    requires Inv(b) && b.enabled
    ensures Typed(b) && Follows(b.store, Emit(b, width, items).store, b.hold.owner)
  {
    hide GatherInv, StoreInv, Emitted, MakeEntry;
    IsTyped(b);
    EmitKeeps(b.fixed, b.store, b.enabled, b.hold.owner, width, items);
  }

  lemma FlushFollows(b: Block)
    requires Inv(b) && b.enabled
    ensures Typed(b) && Follows(b.store, Flush(b).store, b.hold.owner)
  {
    hide Inv, Follows, Emitted;
    IsTyped(b);
    FollowsSelf(b.store, b.hold.owner);
    if b.gathering.pending.Some? && b.gathering.pending.value.items != map[] {
      var c := b.(gathering := b.gathering.(pending := None));
      EmitFollowsAs(b, c, b.gathering.pending.value.width, b.gathering.pending.value.items);
    }
  }

  lemma EmitFollowsAs(b: Block, c: Block, width: nat, items: Change)
    requires Inv(b) && b.enabled && c == b.(gathering := c.gathering)
    ensures Typed(b) && Follows(b.store, Emit(c, width, items).store, b.hold.owner)
  {
    hide Inv, Follows, Emitted;
    EmitFollows(b, width, items);
  }

  lemma {:induction false} AddFollows(b: Block, items: Change)
    requires Inv(b) && b.enabled && Below(items, b.config.members) && items != map[]
    ensures Typed(b) && Follows(b.store, Add(b, items).store, b.hold.owner)
    ensures Add(b, items) == b.(store := Add(b, items).store, gathering := Add(b, items).gathering)
    decreases if b.gathering.pending.Some? && Overlap(items, b.gathering.pending.value.items) then 1 else 0
  {
    hide Inv, Follows, Emitted;
    IsTyped(b);
    FollowsSelf(b.store, b.hold.owner);
    if b.config.bufTm > 0 {
      if Overlap(items, Begun(b).gathering.pending.value.items) {
        FlushInv(b);
        FlushFollows(b);
        AddFollows(Flush(b), items);
        FollowsOn(b.store, Flush(b).store, Add(Flush(b), items).store, b.hold.owner);
      }
    } else {
      EmitFollows(b, b.config.members, items);
    }
  }

  lemma ReportAllFollows(b: Block, reason: Reason, values: seq<AccessResult>)
    requires Inv(b) && b.enabled
    ensures Typed(b) && Follows(b.store, ReportAll(Flush(b), reason, values).store, b.hold.owner)
  {
    hide Inv, Follows, Emitted, Flush;
    IsTyped(b);
    FlushInv(b);
    FlushFollows(b);
    EmitFollows(Flush(b), b.config.members, EveryMember(reason, values));
    FollowsOn(b.store, Flush(b).store, ReportAll(Flush(b), reason, values).store, b.hold.owner);
  }

  // What ends an enabling: its owner writes RptEna FALSE, or goes.
  predicate Ends(b: Block, e: Event) {
    match e
    case AWrite(c, RptEna(false), _) => b.hold.owner == Some(c.id)
    case AClose(id, _) => b.hold.owner == Some(id)
    case _ => false
  }

  lemma EnabledWrite(b: Block, c: Client, a: Attribute, now: int)
    requires Inv(b) && b.enabled && !Ends(b, AWrite(c, a, now))
    ensures Typed(b)
    ensures var r := Write(b, c, a, now).0; r.enabled && r.hold == b.hold && Follows(b.store, r.store, b.hold.owner)
  {
    hide Inv, Follows, Flush, ReportAll, Write;
    IsTyped(b);
    HasOwner(b);
    FollowsSelf(b.store, b.hold.owner);
    EnabledWrites(b, c, a, now);
    if a.Gi? {
      ReportAllFollows(b, GENERAL_INTERROGATION, a.values);
      OnlyStore(b, GENERAL_INTERROGATION, a.values);
    }
  }

  // All an enabled block's owner can do is to ask for a general interrogation, or end it.
  lemma EnabledWrites(b: Block, c: Client, a: Attribute, now: int)
    requires Typed(b) && b.enabled && b.hold.owner.Some? && !Ends(b, AWrite(c, a, now))
    ensures Write(b, c, a, now).0 == b || (a.Gi? && Write(b, c, a, now).0 == ReportAll(Flush(b), GENERAL_INTERROGATION, a.values))
  {
    hide Flush, ReportAll, Enabled, Taken, Released, Purged;
  }

  lemma EnabledTimer(b: Block, due: int, values: seq<AccessResult>, now: int)
    requires Inv(b) && b.enabled
    ensures Typed(b)
    ensures var r := IntegrityTimer(b, due, values, now);
            r.enabled && r.hold == b.hold && Follows(b.store, r.store, b.hold.owner)
  {
    IsTyped(b);
    FollowsSelf(b.store, b.hold.owner);
    hide Inv, Follows, Emitted, Flush, ReportAll;
    ReportAllFollows(b, INTEGRITY, values);
    OnlyStore(b, INTEGRITY, values);
  }

  lemma EnabledChange(b: Block, items: Change)
    requires Inv(b) && b.enabled && Below(items, b.config.members)
    ensures Typed(b)
    ensures var r := Changed(b, items); r.enabled && r.hold == b.hold && Follows(b.store, r.store, b.hold.owner)
  {
    IsTyped(b);
    FollowsSelf(b.store, b.hold.owner);
    hide Inv, Follows, Add, Below;
    if items != map[] {
      AddFollows(b, items);
    }
  }

  lemma EnabledGatherTimer(b: Block, serial: nat)
    requires Inv(b) && b.enabled
    ensures Typed(b)
    ensures var r := GatherTimer(b, serial); r.enabled && r.hold == b.hold && Follows(b.store, r.store, b.hold.owner)
  {
    IsTyped(b);
    FollowsSelf(b.store, b.hold.owner);
    hide Inv, Follows, Flush;
    FlushFollows(b);
  }

  // An enabled block stays its owner's, and sends it each entry made, until the owner ends it.
  lemma EnabledStep(b: Block, e: Event)
    requires Inv(b) && b.enabled && Possible(b, e) && !Ends(b, e)
    ensures Typed(b)
    ensures Step(b, e).enabled && Step(b, e).hold.owner == b.hold.owner
    ensures Follows(b.store, Step(b, e).store, b.hold.owner)
  {
    IsTyped(b);
    HasOwner(b);
    FollowsSelf(b.store, b.hold.owner);
    hide Inv, Follows, Write, Changed, GatherTimer, IntegrityTimer;
    match e
    case AWrite(c, a, now) => EnabledWrite(b, c, a, now);
    case AClose(_, _) =>
    case ALapse(_) =>
    case AChange(items) => EnabledChange(b, items);
    case AGatherTimer(serial) => EnabledGatherTimer(b, serial);
    case AnIntegrityTimer(due, values, now) => EnabledTimer(b, due, values, now);
  }

  lemma HasOwner(b: Block)
    requires Inv(b)
    ensures b.enabled ==> b.hold.owner.Some?
    ensures b.hold.until.Some? ==> b.hold.owner.None?
  {
    hide StoreInv, GatherInv;
  }

  lemma OnlyStore(b: Block, reason: Reason, values: seq<AccessResult>)
    requires Typed(b)
    ensures var r := ReportAll(Flush(b), reason, values);
            r == b.(store := r.store, gathering := r.gathering)
  {
    hide Emitted;
  }

  // None of the events ends the enabling.
  ghost predicate NoneEnds(b: Block, es: seq<Event>)
    requires Typed(b)
  {
    es == [] || (NoneEnds(b, es[..|es| - 1]) && !Ends(Run(b, es[..|es| - 1]), es[|es| - 1]))
  }

  lemma {:induction false} EnabledRun(b: Block, es: seq<Event>)
    requires Inv(b) && Typed(b) && b.enabled && PossibleRun(b, es) && NoneEnds(b, es)
    ensures Run(b, es).enabled && Run(b, es).hold.owner == b.hold.owner
    ensures Follows(b.store, Run(b, es).store, b.hold.owner)
  {
    hide Inv, Follows, Step, Ends;
    if es == [] {
      FollowsSelf(b.store, b.hold.owner);
    } else {
      var most := es[..|es| - 1];
      EnabledRun(b, most);
      RunInv(b, most);
      EnabledStep(Run(b, most), es[|es| - 1]);
      FollowsOn(b.store, Run(b, most).store, Run(b, es).store, b.hold.owner);
    }
  }

  // Where what an enabling client is sent begins, among all the entries ever made.
  function Begins(b: Block): nat {
    if !b.fixed.buffered || |b.store.buffer| > |b.store.entries| then |b.store.entries|
    else |b.store.entries| - |b.store.buffer| + FirstAbove(b.store, b.store.entryId)
  }

  // From the moment a client enables a block until it ends that, it is sent exactly the
  // entries ever made from the first kept one above EntryID on: in order, none twice, and no
  // gap, however many changes, timers and other clients' writes there are.
  lemma Subscription(b: Block, c: Client, now: int, e: Block, es: seq<Event>)
    requires Inv(b) && Typed(b) && !b.enabled && !HeldByOther(b.hold, c, now)
    requires e == Step(b, AWrite(c, RptEna(true), now)) && Typed(e)
    requires PossibleRun(e, es) && NoneEnds(e, es)
    ensures var r := Run(e, es).store;
            && Begins(b) <= |b.store.entries| <= |r.entries| && r.entries[..|b.store.entries|] == b.store.entries
            && SentFrom(b.store, r, Some(c.id), r.entries[Begins(b)..])
  {
    EnablingStep(b, c, now);
    hide Inv, Step, Enabled, Follows, SentFrom, Taken;
    EnabledInv(b, c, now);
    EnabledRun(e, es);
    ReplayedIsTail(b);
    Appending(b.store, e.store, Run(e, es).store, Some(c.id), Begins(b));
  }

  lemma EnablingStep(b: Block, c: Client, now: int)
    requires Typed(b) && !b.enabled && !HeldByOther(b.hold, c, now)
    ensures Step(b, AWrite(c, RptEna(true), now)) == Enabled(Taken(b, c).(enabled := true), now)
  {
    hide Enabled;
  }

  lemma ReplayedIsTail(b: Block)
    requires Inv(b)
    ensures |b.store.buffer| <= |b.store.entries| && Begins(b) <= |b.store.entries|
    ensures Replayed(b) == b.store.entries[Begins(b)..]
  {
    hide HoldInv, GatherInv, Bounded, Marked, Logged, TotalSize;
  }

  lemma Appending(s: Store, t: Store, u: Store, to: Option<nat>, from: nat)
    requires from <= |s.entries| && t.entries == s.entries
    requires SentFrom(s, t, to, s.entries[from..]) && Follows(t, u, to)
    ensures |s.entries| <= |u.entries| && u.entries[..|s.entries|] == s.entries
    ensures SentFrom(s, u, to, u.entries[from..])
  {
    forall i | |s.reports| <= i < |u.reports|
      ensures u.reports[i].to == to && u.reports[i].entry == u.entries[from..][i - |s.reports|]
    {
      if i < |t.reports| {
        assert u.reports[i] == t.reports[i];
        assert u.entries[from + i - |s.reports|] == s.entries[from + i - |s.reports|];
      }
    }
    forall i | 0 <= i < |s.reports|
      ensures u.reports[i] == s.reports[i]
    {
      assert u.reports[i] == t.reports[i];
    }
  }

  // --- reservation -------------------------------------------------------------------------

  // Nothing the client that left, or its address, does before the reservation ends.
  predicate Outside(b: Block, e: Event) {
    match e
    case AWrite(c, _, now) => c.address != b.hold.address && b.hold.until.Some? && now < b.hold.until.value
    case ALapse(due) => b.hold.until != Some(due)
    case _ => true
  }

  ghost predicate AllOutside(b: Block, es: seq<Event>) {
    forall i :: 0 <= i < |es| ==> Outside(b, es[i])
  }

  lemma {:induction false} AddHold(b: Block, items: Change)
    requires Typed(b)
    ensures var r := Add(b, items); r == b.(store := r.store, gathering := r.gathering)
    decreases if b.gathering.pending.Some? && Overlap(items, b.gathering.pending.value.items) then 1 else 0
  {
    hide Emitted;
    if b.config.bufTm > 0 && b.enabled && Overlap(items, Begun(b).gathering.pending.value.items) {
      AddHold(Flush(b), items);
    }
  }

  lemma ReservedStep(b: Block, e: Event)
    requires Typed(b) && !b.enabled && b.hold.owner.None? && b.hold.until.Some? && Outside(b, e)
    ensures var r := Step(b, e); !r.enabled && r.hold == b.hold && r.config == b.config
  {
    hide Emitted, Add, ReportAll;
    if e.AChange? {
      AddHold(b, e.items);
    }
  }

  // A BRCB whose client is gone stays reserved: until the time is over, nobody at another
  // address enables, releases or reconfigures it, whatever else happens.
  lemma {:induction false} StaysReserved(b: Block, es: seq<Event>)
    requires Typed(b) && !b.enabled && b.hold.owner.None? && b.hold.until.Some? && AllOutside(b, es)
    ensures var r := Run(b, es); !r.enabled && r.hold == b.hold && r.config == b.config
  {
    hide Step, Outside;
    if es != [] {
      var most := es[..|es| - 1];
      StaysReserved(b, most);
      OutsideSame(b, Run(b, most), es[|es| - 1]);
      ReservedStep(Run(b, most), es[|es| - 1]);
    }
  }

  lemma OutsideSame(b: Block, c: Block, e: Event)
    requires Outside(b, e) && c.hold == b.hold
    ensures Outside(c, e)
  {
  }
}
