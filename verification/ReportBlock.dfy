/**
 One report control block and everything that happens to it (`server/reporting.py`): client
 writes, closed connections, changes, timers. Whole runs of it keep the reservation, conserve
 the changes BufTm gathers, and send an enabling client the entries after its EntryID.
 */
module ReportBlock {
  import opened Modulo
  import opened Octets
  import opened ReportWire
  import opened Reporting

  // --- a block -----------------------------------------------------------------------------

  // The changes gathered for BufTm. Python tells one gathering from a later one by identity:
  // here each has a serial number.
  datatype Gathered = Gathered(serial: nat, width: nat, items: Change)

  // An entry made of changes: its EntryID and, as history, the notifications it was made of.
  datatype Group = Group(id: nat, width: nat, notes: seq<Change>)

  // `notes`, `open` and `groups` are history: every notification, those of the pending
  // gathering, and those of each entry made of changes.
  datatype Gathering = Gathering(pending: Option<Gathered>, serials: nat, notes: seq<Change>, open: seq<Change>,
                                 groups: seq<Group>)

  datatype Client = Client(id: nat, address: Option<nat>)

  // Who holds the block; `until`, the time a BRCB stays reserved after its client left.
  datatype Hold = Hold(owner: Option<nat>, address: Option<nat>, until: Option<int>, resv: bool, resvTms: int)

  datatype Config = Config(bufTm: nat, members: nat, wantsGi: bool, wantsIntegrity: bool, intgPd: nat)

  datatype Block = Block(fixed: Fixed, config: Config, enabled: bool, everEnabled: bool, integrityDue: Option<int>,
                         hold: Hold, store: Store, gathering: Gathering)

  // --- gathering ---------------------------------------------------------------------------

  predicate Typed(b: Block) {
    TypedFixed(b.fixed)
  }

  function Emit(b: Block, width: nat, items: Change): Block
    requires Typed(b)
  {
    b.(store := Emitted(b.fixed, b.store, b.enabled, b.hold.owner, width, items))
  }

  // `_flush`.
  function Flush(b: Block): (r: Block)
    requires Typed(b)
    ensures r.gathering.pending.None?
    ensures r == b.(store := r.store, gathering := r.gathering)
  {
    match b.gathering.pending
    case None => b
    case Some(g) =>
      var c := b.(gathering := b.gathering.(pending := None));
      if g.items == map[] then c
      else
        var group := Group(b.store.next, g.width, b.gathering.open);
        Emit(c, g.width, g.items).(gathering := c.gathering.(groups := c.gathering.groups + [group], open := []))
  }

  predicate Overlap(a: Change, b: Change) {
    exists i :: i in a && i in b
  }

  function Max(a: nat, b: nat): nat {
    if a >= b then a else b
  }

  // A gathering begun if there is none.
  function Begun(b: Block): (r: Block)
    requires Typed(b)
    ensures r.gathering.pending.Some? && r == b.(gathering := r.gathering)
    ensures b.gathering.pending.Some? ==> r == b
    ensures b.gathering.pending.None? ==> r.gathering.pending.value.items == map[]
  {
    if b.gathering.pending.Some? then b
    else b.(gathering := b.gathering.(pending := Some(Gathered(b.gathering.serials, b.config.members, map[])),
                                      serials := b.gathering.serials + 1))
  }

  // A change joins the pending gathering.
  function Joined(b: Block, items: Change): Block
    requires b.gathering.pending.Some?
  {
    var g := b.gathering.pending.value;
    b.(gathering := b.gathering.(pending := Some(Gathered(g.serial, Max(g.width, b.config.members), g.items + items)),
                                 notes := b.gathering.notes + [items], open := b.gathering.open + [items]))
  }

  // A change makes an entry of its own.
  function Alone(b: Block, items: Change): Block
    requires Typed(b)
  {
    var group := Group(b.store.next, b.config.members, [items]);
    Emit(b, b.config.members, items).(gathering := b.gathering.(notes := b.gathering.notes + [items],
                                                                groups := b.gathering.groups + [group]))
  }

  // `_add`: with a member again, the gathered entry goes first, and the change starts over.
  function Add(b: Block, items: Change): Block
    requires Typed(b)
    decreases if b.gathering.pending.Some? && Overlap(items, b.gathering.pending.value.items) then 1 else 0
  {
    if b.config.bufTm > 0 && b.enabled then
      var c := Begun(b);
      if Overlap(items, c.gathering.pending.value.items) then Add(Flush(c), items) else Joined(c, items)
    else Alone(b, items)
  }

  // --- steps -------------------------------------------------------------------------------

  function EveryMember(reason: Reason, values: seq<AccessResult>): Change {
    map i: nat | 0 <= i < |values| :: Item(reason, values[i])
  }

  const GENERAL_INTERROGATION := Reason(false, false, false, false, true, false)
  const INTEGRITY := Reason(false, false, false, true, false, false)

  function ReportAll(b: Block, reason: Reason, values: seq<AccessResult>): Block
    requires Typed(b)
  {
    Emit(b, b.config.members, EveryMember(reason, values))
  }

  function ScheduleIntegrity(b: Block, now: int): Block {
    if b.config.intgPd > 0 && b.config.wantsIntegrity then b.(integrityDue := Some(now + b.config.intgPd)) else b
  }

  predicate HeldByOther(h: Hold, c: Client, now: int) {
    if h.owner.Some? then h.owner != Some(c.id)
    else h.until.Some? && now < h.until.value && c.address != h.address
  }

  function Taken(b: Block, c: Client): Block {
    b.(hold := b.hold.(owner := Some(c.id), address := c.address, until := None,
                       resv := b.hold.resv || !b.fixed.buffered))
  }

  function Released(b: Block, until: Option<int>): Block {
    b.(hold := if until.Some? then b.hold.(owner := None, until := until)
               else b.hold.(owner := None, until := None, address := None, resv := b.hold.resv && b.fixed.buffered))
  }

  // The entries after EntryID, then the integrity period.
  function Enabled(b: Block, now: int): Block
    requires Typed(b)
  {
    var c := b.(everEnabled := true);
    var sent := if b.fixed.buffered
                then c.(store := SentAll(b.fixed, b.store, b.hold.owner, AboveIn(b.store.buffer, b.store.entryId))) else c;
    ScheduleIntegrity(sent, now)
  }

  datatype Attribute =
    | RptEna(on: bool)
    | Gi(on: bool, values: seq<AccessResult>)
    | PurgeBuf(on: bool)
    | EntryId(value: nat)
    | Resv(on: bool)
    | ResvTms(seconds: int)
    | Configure(config: Config)
    | ReadOnly

  datatype Answer = Done | Unavailable | Denied | NonExistent

  predicate LockedWhileEnabled(a: Attribute) {
    a.Configure? || a.PurgeBuf? || a.EntryId? || a.Resv? || a.ResvTms?
  }

  // A BRCB has no Resv; a URCB has none of the buffer's attributes.
  predicate Has(f: Fixed, a: Attribute) {
    if f.buffered then !a.Resv? else !(a.PurgeBuf? || a.EntryId? || a.ResvTms?)
  }

  // `_on_write`.
  function Write(b: Block, c: Client, a: Attribute, now: int): (r: (Block, Answer))
    requires Typed(b)
  {
    if !Has(b.fixed, a) then (b, NonExistent)
    else if HeldByOther(b.hold, c, now) then (b, Unavailable)
    else if a.ReadOnly? then (b, Denied)
    else if b.enabled && LockedWhileEnabled(a) then (b, Unavailable)
    else (Written(b, c, a, now), Done)
  }

  function Written(b: Block, c: Client, a: Attribute, now: int): Block
    requires Typed(b)
  {
    match a
    case Resv(on) => if on then Taken(b, c) else Released(b, None)
    case ResvTms(v) =>
      var w := b.(hold := b.hold.(resvTms := v));
      if v != 0 then Taken(w, c) else if b.hold.owner == Some(c.id) then Released(w, None) else w
    case PurgeBuf(on) => if on then b.(store := Purged(b.store)) else b
    case Gi(on, values) =>
      if on && b.enabled && b.config.wantsGi then ReportAll(Flush(b), GENERAL_INTERROGATION, values) else b
    case RptEna(on) =>
      if on && !b.enabled then Enabled(Taken(b, c).(enabled := true), now)
      else if !on && b.enabled then Flush(b.(enabled := false)).(integrityDue := None)
      else b
    case EntryId(v) => b.(store := b.store.(entryId := v))
    case Configure(config) => b.(config := config)
    case ReadOnly => b
  }

  // `_on_close`: the block is disabled, and a gathering is left pending.
  function Close(b: Block, client: nat, now: int): Block {
    if b.hold.owner != Some(client) then b
    else
      var c := b.(enabled := false, integrityDue := None);
      Released(c, if b.fixed.buffered && b.hold.resvTms > 0 then Some(now + b.hold.resvTms) else None)
  }

  // `_lapse`.
  function Lapse(b: Block, due: int): Block {
    if b.hold.owner.None? && b.hold.until == Some(due) then
      var c := Released(b, None);
      c.(hold := c.hold.(resvTms := 0))
    else b
  }

  function Changed(b: Block, items: Change): Block
    requires Typed(b)
  {
    if (b.enabled || (b.fixed.buffered && b.everEnabled)) && items != map[] then Add(b, items) else b
  }

  function GatherTimer(b: Block, serial: nat): Block
    requires Typed(b)
  {
    if b.gathering.pending.Some? && b.gathering.pending.value.serial == serial then Flush(b) else b
  }

  function IntegrityTimer(b: Block, due: int, values: seq<AccessResult>, now: int): Block
    requires Typed(b)
  {
    if b.enabled && b.integrityDue == Some(due) then ScheduleIntegrity(ReportAll(Flush(b), INTEGRITY, values), now) else b
  }

  datatype Event =
    | AWrite(client: Client, attribute: Attribute, now: int)
    | AClose(id: nat, now: int)
    | ALapse(due: int)
    | AChange(items: Change)
    | AGatherTimer(serial: nat)
    | AnIntegrityTimer(due: int, values: seq<AccessResult>, now: int)

  // Any timer may fire at any time, and any number of times: those that are stale too.
  function Step(b: Block, e: Event): Block
    requires Typed(b)
  {
    match e
    case AWrite(c, a, now) => Write(b, c, a, now).0
    case AClose(c, now) => Close(b, c, now)
    case ALapse(due) => Lapse(b, due)
    case AChange(items) => Changed(b, items)
    case AGatherTimer(serial) => GatherTimer(b, serial)
    case AnIntegrityTimer(due, values, now) => IntegrityTimer(b, due, values, now)
  }

  // What the model gives: places in the data set, one value for each member.
  predicate Possible(b: Block, e: Event) {
    match e
    case AChange(items) => Below(items, b.config.members)
    case AWrite(_, a, _) => a.Gi? ==> |a.values| == b.config.members
    case AnIntegrityTimer(_, values, _) => |values| == b.config.members
    case _ => true
  }

  // A block as the server makes it.
  function Fresh(f: Fixed, config: Config, resvTms: int): Block
    requires TypedFixed(f)
  {
    Block(f, config, false, false, None, Hold(None, None, None, false, resvTms),
          Store([], 0, false, 0, 1, 0, f.firstSq, [], [], [], []), Gathering(None, 0, [], [], []))
  }

  // --- what every step keeps ---------------------------------------------------------------

  predicate HoldInv(b: Block) {
    && (b.enabled ==> b.hold.owner.Some? && b.everEnabled)
    && (b.hold.until.Some? ==> b.hold.owner.None? && b.fixed.buffered)
    && (!b.fixed.buffered ==> (b.hold.resv <==> b.hold.owner.Some?))
    && (forall i :: 0 <= i < |b.store.reports| ==> b.store.reports[i].to.Some?)
  }

  // The last value of each member wins; the notifications of one entry never share one.
  function Union(notes: seq<Change>): Change {
    if notes == [] then map[] else Union(notes[..|notes| - 1]) + notes[|notes| - 1]
  }

  predicate Apart(notes: seq<Change>) {
    forall i, j :: 0 <= i < j < |notes| ==> !Overlap(notes[i], notes[j])
  }

  predicate IsMade(entries: seq<Entry>, g: Group) {
    && 1 <= g.id <= |entries| && entries[g.id - 1] == MakeEntry(g.id, g.width, Union(g.notes))
    && g.notes != [] && Apart(g.notes) && Below(Union(g.notes), g.width)
  }

  predicate GroupsMade(entries: seq<Entry>, groups: seq<Group>) {
    && (forall i :: 0 <= i < |groups| ==> IsMade(entries, groups[i]))
    && (forall i, j :: 0 <= i < j < |groups| ==> groups[i].id < groups[j].id)
  }

  // The notifications of all the groups, in order.
  function Flat(groups: seq<Group>): seq<Change> {
    if groups == [] then [] else Flat(groups[..|groups| - 1]) + groups[|groups| - 1].notes
  }

  predicate PendingIsOpen(g: Gathering) {
    match g.pending
    case None => g.open == []
    case Some(p) => && p.serial < g.serials && g.open != [] && p.items == Union(g.open) && p.items != map[]
                    && Apart(g.open) && Below(p.items, p.width)
  }

  predicate GatherInv(entries: seq<Entry>, g: Gathering) {
    && PendingIsOpen(g)
    && GroupsMade(entries, g.groups)
    && multiset(Flat(g.groups)) + multiset(g.open) == multiset(g.notes)
  }

  predicate Inv(b: Block) {
    StoreInv(b.fixed, b.store) && HoldInv(b) && GatherInv(b.store.entries, b.gathering)
  }

  // Entries follow the notifications, and only an enabled block gathers.
  predicate InOrder(b: Block) {
    Flat(b.gathering.groups) + b.gathering.open == b.gathering.notes && (b.gathering.pending.Some? ==> b.enabled && b.config.bufTm > 0)
  }

  lemma FreshInv(f: Fixed, config: Config, resvTms: int)
    requires TypedFixed(f)
    ensures Inv(Fresh(f, config, resvTms)) && InOrder(Fresh(f, config, resvTms))
  {
    assert f.firstSq % f.modulo == f.firstSq by { RemainderIsUnique(f.firstSq, f.modulo, 0, f.firstSq); }
  }

  lemma GroupsStay(entries: seq<Entry>, more: seq<Entry>, groups: seq<Group>)
    requires GroupsMade(entries, groups)
    ensures GroupsMade(entries + more, groups)
  {
    hide MakeEntry, Union, Apart;
  }

  lemma OneMoreGroup(entries: seq<Entry>, groups: seq<Group>, g: Group)
    requires GroupsMade(entries, groups) && g.id == |entries| + 1
    requires g.notes != [] && Apart(g.notes) && Below(Union(g.notes), g.width)
    ensures GroupsMade(entries + [MakeEntry(g.id, g.width, Union(g.notes))], groups + [g])
    ensures Flat(groups + [g]) == Flat(groups) + g.notes
  {
    hide MakeEntry, Union, Apart;
    var made := entries + [MakeEntry(g.id, g.width, Union(g.notes))];
    GroupsStay(entries, [MakeEntry(g.id, g.width, Union(g.notes))], groups);
    assert IsMade(made, g);
    assert forall i :: 0 <= i < |groups| ==> IsMade(made, (groups + [g])[i]);
    assert (groups + [g])[..|groups|] == groups;
  }

  // An entry that is made keeps everything but the gathering, which is the caller's.
  lemma EmitInv(b: Block, width: nat, items: Change)
    requires StoreInv(b.fixed, b.store) && HoldInv(b)
    ensures var r := Emit(b, width, items);
            && StoreInv(r.fixed, r.store) && HoldInv(r)
            && r.store.entries == b.store.entries + [MakeEntry(b.store.next, width, items)]
            && b.store.next == |b.store.entries| + 1
  {
    hide Emitted, MakeEntry;
    EmitKeeps(b.fixed, b.store, b.enabled, b.hold.owner, width, items);
  }

  lemma FlushInv(b: Block)
    requires Inv(b)
    ensures Inv(Flush(b))
    ensures InOrder(b) ==> InOrder(Flush(b))
    ensures Flush(b).gathering.notes == b.gathering.notes
  {
    hide StoreInv, HoldInv, MakeEntry, Union, Apart, GroupsMade, Emitted;
    TypedInv(b);
    if b.gathering.pending.Some? {
      var g := b.gathering.pending.value;
      var c := b.(gathering := b.gathering.(pending := None));
      HoldOnly(b, c);
      EmitInv(c, g.width, g.items);
      OneMoreGroup(b.store.entries, b.gathering.groups, Group(b.store.next, g.width, b.gathering.open));
      HoldOnly(Emit(c, g.width, g.items), Flush(b));
    }
  }

  lemma TypedInv(b: Block)
    requires StoreInv(b.fixed, b.store)
    ensures Typed(b)
  {
  }

  lemma HoldOnly(b: Block, c: Block)
    requires HoldInv(b) && c == b.(gathering := c.gathering, config := c.config, integrityDue := c.integrityDue)
    ensures HoldInv(c)
  {
  }

  // What a change does to the gathering it joins.
  lemma PendingJoined(b: Block, items: Change)
    requires PendingIsOpen(b.gathering) && Below(items, b.config.members) && items != map[] && Typed(b)
    requires b.gathering.pending.None? || !Overlap(items, b.gathering.pending.value.items)
    ensures PendingIsOpen(Joined(Begun(b), items).gathering)
  {
    hide Overlap, Apart, Union;
    UnionSnoc(b.gathering.open, items);
    if b.gathering.pending.Some? {
      StillApart(b.gathering.open, items);
    } else {
      OnlyNote(items);
      assert [] + [items] == [items];
      assert map[] + items == items;
    }
  }

  lemma JoinedInv(b: Block, items: Change)
    requires Inv(b) && Below(items, b.config.members) && items != map[]
    requires b.gathering.pending.None? || !Overlap(items, b.gathering.pending.value.items)
    ensures Typed(b) && Inv(Joined(Begun(b), items))
    ensures InOrder(b) && b.enabled && b.config.bufTm > 0 ==> InOrder(Joined(Begun(b), items))
  {
    hide StoreInv, HoldInv, GroupsMade, PendingIsOpen, Flat;
    TypedInv(b);
    var r := Joined(Begun(b), items);
    HoldOnly(b, r);
    PendingJoined(b, items);
    Flatter(b.gathering, items);
  }

  lemma Flatter(g: Gathering, items: Change)
    requires multiset(Flat(g.groups)) + multiset(g.open) == multiset(g.notes)
    ensures multiset(Flat(g.groups)) + multiset(g.open + [items]) == multiset(g.notes + [items])
    ensures Flat(g.groups) + (g.open + [items]) == (Flat(g.groups) + g.open) + [items]
  {
  }

  lemma UnionSnoc(notes: seq<Change>, items: Change)
    ensures Union(notes + [items]) == Union(notes) + items
  {
    assert (notes + [items])[..|notes|] == notes;
  }

  lemma {:induction false} StillApart(notes: seq<Change>, items: Change)
    requires Apart(notes) && !Overlap(items, Union(notes))
    ensures Apart(notes + [items])
  {
    forall i | 0 <= i < |notes|
      ensures !Overlap(notes[i], items)
    {
      InUnion(notes, i);
    }
  }

  lemma {:induction false} InUnion(notes: seq<Change>, i: nat)
    requires i < |notes|
    ensures forall k :: k in notes[i] ==> k in Union(notes)
    ensures Apart(notes) ==> forall k :: k in notes[i] ==> Union(notes)[k] == notes[i][k]
  {
    var n := |notes| - 1;
    if i < n {
      InUnion(notes[..n], i);
      if Apart(notes) {
        assert forall k :: k in notes[i] ==> k !in notes[n] by {
          assert !Overlap(notes[i], notes[n]);
        }
      }
    }
  }

  lemma FlatterAlone(g: Gathering, items: Change)
    requires multiset(Flat(g.groups)) + multiset(g.open) == multiset(g.notes)
    ensures multiset(Flat(g.groups) + [items]) + multiset(g.open) == multiset(g.notes + [items])
    ensures g.open == [] ==> (Flat(g.groups) + [items]) + g.open == (Flat(g.groups) + g.open) + [items]
  {
  }

  lemma AloneInv(b: Block, items: Change)
    requires Inv(b) && Below(items, b.config.members)
    ensures Typed(b) && Inv(Alone(b, items))
    ensures InOrder(b) && b.gathering.pending.None? ==> InOrder(Alone(b, items))
  {
    hide StoreInv, HoldInv, MakeEntry, GroupsMade, Emitted, Flat, Union, Apart;
    TypedInv(b);
    EmitInv(b, b.config.members, items);
    OnlyNote(items);
    OneMoreGroup(b.store.entries, b.gathering.groups, Group(b.store.next, b.config.members, [items]));
    HoldOnly(Emit(b, b.config.members, items), Alone(b, items));
    FlatterAlone(b.gathering, items);
  }

  lemma OnlyNote(items: Change)
    ensures Union([items]) == items && Apart([items])
  {
    assert map[] + items == items;
    assert [items][..0] == [];
  }

  // `_add` ends: after a flush nothing is pending, so nothing overlaps again.
  lemma {:induction false} AddInv(b: Block, items: Change)
    requires Inv(b) && Below(items, b.config.members) && items != map[]
    ensures Typed(b) && Inv(Add(b, items))
    ensures InOrder(b) ==> InOrder(Add(b, items))
    ensures Add(b, items).gathering.notes == b.gathering.notes + [items]
    decreases if b.gathering.pending.Some? && Overlap(items, b.gathering.pending.value.items) then 1 else 0
  {
    hide StoreInv, HoldInv, GatherInv, Flat, Emitted;
    TypedInv(b);
    if b.config.bufTm > 0 && b.enabled {
      if Overlap(items, Begun(b).gathering.pending.value.items) {
        FlushInv(b);
        AddInv(Flush(b), items);
      } else {
        JoinedInv(b, items);
      }
    } else {
      AloneInv(b, items);
    }
  }
}
