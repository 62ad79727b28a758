/**
 The mutable report control block of `server/reporting.py`: each method updates its fields in
 place and ends in the state the steps of `ReportBlock` say.
 */
module ReportControl {
  import opened Octets
  import opened ReportWire
  import opened Reporting
  import opened ReportBlock
  import opened ReportRuns

  /** The entries of a block: its buffer, and the counters it sends them with. */
  class Entries {
    const fixed: Fixed
    var buffer: seq<Entry>
    var bufferBytes: int
    var overflowed: bool
    var sent: nat
    var nextEntry: nat
    var entryId: nat
    var sqNum: nat
    ghost var entries: seq<Entry>
    ghost var drops: seq<nat>
    ghost var reports: seq<SentReport>
    ghost var trace: seq<Happening>

    ghost function Now(): Store
      reads this
    {
      Store(buffer, bufferBytes, overflowed, sent, nextEntry, entryId, sqNum, entries, drops, reports, trace)
    }

    constructor (f: Fixed)
      requires TypedFixed(f)
      ensures fixed == f && Now() == Store([], 0, false, 0, 1, 0, f.firstSq, [], [], [], [])
    {
      fixed, buffer, bufferBytes, overflowed, sent, nextEntry, entryId, sqNum := f, [], 0, false, 0, 1, 0, f.firstSq;
      entries, drops, reports, trace := [], [], [], [];
    }

    // `keep`: the oldest dropped beyond the bounds; one never sent sets BufOvfl.
    method Keep(e: Entry)
      modifies this
      ensures Now() == Kept(fixed, old(Now()), e)
    {
      buffer := buffer + [e];
      bufferBytes := bufferBytes + Size(e);
      while |buffer| > 1 && (|buffer| > fixed.maxEntries || bufferBytes > fixed.maxBytes)
        invariant Trimmed(fixed, Now()) == Kept(fixed, old(Now()), e)
        decreases |buffer|
      {
        Drop();
      }
    }

    method Drop()
      requires buffer != []
      modifies this
      ensures Now() == DropOldest(old(Now())) && |buffer| < old(|buffer|)
    {
      var dropped := buffer[0];
      buffer := buffer[1..];
      bufferBytes := bufferBytes - Size(dropped);
      if dropped.id > sent {
        overflowed := true;
      }
      drops := drops + [dropped.id];
      trace := trace + [Dropped(dropped.id)];
    }

    method Purge()
      modifies this
      ensures Now() == Purged(old(Now()))
    {
      buffer := [];
      bufferBytes := 0;
      overflowed := false;
      drops := [];
      trace := trace + [PurgedAll];
    }

    // What `_send` does once the report is encoded (see ReportWire).
    method Send(to: Option<nat>, e: Entry)
      requires TypedFixed(fixed)
      modifies this
      ensures Now() == Sent(fixed, old(Now()), to, e)
    {
      ghost var report := SentReport(to, e, sqNum, fixed.buffered && overflowed);
      reports := reports + [report];
      trace := trace + [Reported(report)];
      drops := [];
      sqNum := (sqNum + 1) % fixed.modulo;
      overflowed := false;
      if e.id > sent {
        sent := e.id;
      }
    }

    method NewEntry(width: nat, items: Change) returns (e: Entry)
      modifies this
      ensures e == MakeEntry(old(nextEntry), width, items) && Now() == Made(old(Now()), width, items)
    {
      hide MakeEntry;
      e := MakeEntry(nextEntry, width, items);
      entries := entries + [e];
      nextEntry := nextEntry + 1;
    }

    method Deliver(enabled: bool, to: Option<nat>, e: Entry)
      requires TypedFixed(fixed)
      modifies this
      ensures Now() == Delivered(fixed, old(Now()), enabled, to, e)
    {
      hide Kept, Sent;
      if fixed.buffered {
        Keep(e);
        entryId := e.id;
      }
      if enabled {
        Send(to, e);
      }
    }

    method Emit(enabled: bool, to: Option<nat>, width: nat, items: Change)
      requires TypedFixed(fixed)
      modifies this
      ensures Now() == Emitted(fixed, old(Now()), enabled, to, width, items)
    {
      hide Made, Delivered, MakeEntry;
      var e := NewEntry(width, items);
      Deliver(enabled, to, e);
    }

    // The kept entries above EntryID, sent one after the other.
    method Replay(to: Option<nat>)
      requires TypedFixed(fixed)
      modifies this
      ensures Now() == SentAll(fixed, old(Now()), to, AboveIn(old(buffer), old(entryId)))
    {
      var above := [];
      for i := 0 to |buffer|
        invariant Now() == old(Now()) && above == AboveIn(buffer[..i], entryId)
      {
        assert buffer[..i + 1][..i] == buffer[..i];
        if buffer[i].id > entryId {
          above := above + [buffer[i]];
        }
      }
      assert buffer[..|buffer|] == buffer;
      SendEach(to, above);
    }

    method SendEach(to: Option<nat>, es: seq<Entry>)
      requires TypedFixed(fixed)
      modifies this
      ensures Now() == SentAll(fixed, old(Now()), to, es)
    {
      for i := 0 to |es|
        invariant Now() == SentAll(fixed, old(Now()), to, es[..i])
      {
        Send(to, es[i]);
        assert es[..i + 1][..i] == es[..i];
      }
      assert es[..|es|] == es;
    }
  }

  lemma FreshIs(f: Fixed, config: Config, resvTms: int)
    requires TypedFixed(f)
    ensures Fresh(f, config, resvTms)
         == Block(f, config, false, false, None, Hold(None, None, None, false, resvTms),
                  Store([], 0, false, 0, 1, 0, f.firstSq, [], [], [], []), Gathering(None, 0, [], [], []))
  {
  }

  /** A report control block. */
  class Control {
    const fixed: Fixed
    const store: Entries
    var config: Config
    var enabled: bool
    var everEnabled: bool
    var integrityDue: Option<int>
    var hold: Hold
    var pending: Option<Gathered>
    var serials: nat
    ghost var notes: seq<Change>
    ghost var open: seq<Change>
    ghost var groups: seq<Group>

    ghost predicate Ready()
      reads this, store
    {
      TypedFixed(fixed) && store.fixed == fixed
    }

    // What every reachable block keeps (see ReportRuns).
    ghost predicate Valid()
      reads this, store
    {
      Ready() && Inv(State())
    }

    ghost function State(): (b: Block)
      requires Ready()
      reads this, store
      ensures Typed(b)
    {
      Block(fixed, config, enabled, everEnabled, integrityDue, hold, store.Now(),
            Gathering(pending, serials, notes, open, groups))
    }

    constructor (f: Fixed, c: Config, tms: int)
      requires TypedFixed(f)
      ensures Valid() && fresh(store) && State() == Fresh(f, c, tms)
    {
      hide Inv, Fresh;
      fixed, config, enabled, everEnabled, integrityDue := f, c, false, false, None;
      hold := Hold(None, None, None, false, tms);
      pending, serials := None, 0;
      notes, open, groups := [], [], [];
      store := new Entries(f);
      new;
      FreshInv(f, c, tms);
      FreshIs(f, c, tms);
    }

    // --- reservation -------------------------------------------------------------------------

    method Take(c: Client)
      requires Ready()
      modifies this
      ensures Ready() && State() == Taken(old(State()), c)
    {
      hold := hold.(owner := Some(c.id), until := None, address := c.address);
      if !fixed.buffered {
        hold := hold.(resv := true);
      }
    }

    method Release(until: Option<int>)
      requires Ready()
      modifies this
      ensures Ready() && State() == Released(old(State()), until)
    {
      hold := hold.(owner := None);
      if until.Some? {
        hold := hold.(until := until);
        return;
      }
      hold := hold.(until := None, address := None);
      if !fixed.buffered {
        hold := hold.(resv := false);
      }
    }

    // --- changes -----------------------------------------------------------------------------

    method FlushGathered()
      requires Ready()
      modifies this, store
      ensures Ready() && State() == Flush(old(State()))
    {
      hide Emitted;
      var g := pending;
      pending := None;
      if g.Some? && g.value.items != map[] {
        groups := groups + [Group(store.nextEntry, g.value.width, open)];
        open := [];
        store.Emit(enabled, hold.owner, g.value.width, g.value.items);
      }
    }

    method Begin()
      requires Ready()
      modifies this
      ensures Ready() && State() == Begun(old(State()))
    {
      if pending.None? {
        pending := Some(Gathered(serials, config.members, map[]));
        serials := serials + 1;
      }
    }

    method Join(items: Change)
      requires Ready() && pending.Some?
      modifies this
      ensures Ready() && State() == Joined(old(State()), items)
    {
      pending := Some(Gathered(pending.value.serial, Max(pending.value.width, config.members),
                               pending.value.items + items));
      notes := notes + [items];
      open := open + [items];
    }

    method Single(items: Change)
      requires Ready()
      modifies this, store
      ensures Ready() && State() == Alone(old(State()), items)
    {
      hide Emitted;
      groups := groups + [Group(store.nextEntry, config.members, [items])];
      notes := notes + [items];
      store.Emit(enabled, hold.owner, config.members, items);
    }

    // `_add`.
    method AddChange(items: Change)
      requires Ready()
      modifies this, store
      ensures Ready() && State() == Add(old(State()), items)
      decreases if pending.Some? && Overlap(items, pending.value.items) then 1 else 0
    {
      hide Begun, Flush, Joined, Alone;
      if config.bufTm > 0 && enabled {
        Begin();
        if Overlap(items, pending.value.items) {
          FlushGathered();
          AddChange(items);
          return;
        }
        Join(items);
        return;
      }
      Single(items);
    }

    method Report(reason: Reason, values: seq<AccessResult>)
      requires Ready()
      modifies store
      ensures Ready() && State() == ReportAll(old(State()), reason, values)
    {
      hide Emitted;
      store.Emit(enabled, hold.owner, config.members, EveryMember(reason, values));
    }

    // --- writes ------------------------------------------------------------------------------

    method Schedule(now: int)
      requires Ready()
      modifies this
      ensures Ready() && State() == ScheduleIntegrity(old(State()), now)
    {
      if config.intgPd > 0 && config.wantsIntegrity {
        integrityDue := Some(now + config.intgPd);
      }
    }

    method Enable(now: int)
      requires Ready()
      modifies this, store
      ensures Ready() && State() == Enabled(old(State()), now)
    {
      hide SentAll, AboveIn, ScheduleIntegrity;
      everEnabled := true;
      if fixed.buffered {
        store.Replay(hold.owner);
      }
      Schedule(now);
    }

    // RptEna.
    method Switch(c: Client, on: bool, now: int)
      requires Ready()
      modifies this, store
      ensures Ready() && State() == Written(old(State()), c, RptEna(on), now)
    {
      hide Taken, Enabled, Flush;
      if on && !enabled {
        Take(c);
        enabled := true;
        Enable(now);
      } else if !on && enabled {
        enabled := false;
        FlushGathered();
        integrityDue := None;
      }
    }

    // The other attributes.
    method Assign(c: Client, a: Attribute, now: int)
      requires Ready() && !a.RptEna?
      modifies this, store
      ensures Ready() && State() == Written(old(State()), c, a, now)
    {
      hide Taken, Released, Flush, ReportAll, Purged;
      match a
      case Resv(on) =>
        if on {
          Take(c);
        } else {
          Release(None);
        }
      case ResvTms(v) =>
        hold := hold.(resvTms := v);
        if v != 0 {
          Take(c);
        } else if hold.owner == Some(c.id) {
          Release(None);
        }
      case PurgeBuf(on) =>
        if on {
          store.Purge();
        }
      case Gi(on, values) =>
        if on && enabled && config.wantsGi {
          FlushGathered();
          Report(GENERAL_INTERROGATION, values);
        }
      case EntryId(v) => store.entryId := v;
      case Configure(c) => config := c;
      case ReadOnly =>
    }

    // `_on_write`.
    method OnWrite(c: Client, a: Attribute, now: int) returns (answer: Answer)
      requires Valid() && Possible(State(), AWrite(c, a, now))
      modifies this, store
      ensures Valid() && (State(), answer) == Write(old(State()), c, a, now)
    {
      hide Inv, Written;
      StepInv(State(), AWrite(c, a, now));
      if !Has(fixed, a) {
        return NonExistent;
      }
      if HeldByOther(hold, c, now) {
        return Unavailable;
      }
      if a.ReadOnly? {
        return Denied;
      }
      if enabled && LockedWhileEnabled(a) {
        return Unavailable;
      }
      if a.RptEna? {
        Switch(c, a.on, now);
      } else {
        Assign(c, a, now);
      }
      return Done;
    }

    // --- the rest ----------------------------------------------------------------------------

    method OnClose(id: nat, now: int)
      requires Valid()
      modifies this
      ensures Valid() && State() == Close(old(State()), id, now)
    {
      hide Inv, Released;
      StepInv(State(), AClose(id, now));
      if hold.owner != Some(id) {
        return;
      }
      enabled := false;
      integrityDue := None;
      Release(if fixed.buffered && hold.resvTms > 0 then Some(now + hold.resvTms) else None);
    }

    method OnLapse(due: int)
      requires Valid()
      modifies this
      ensures Valid() && State() == Lapse(old(State()), due)
    {
      hide Inv, Released;
      StepInv(State(), ALapse(due));
      if hold.owner.None? && hold.until == Some(due) {
        Release(None);
        hold := hold.(resvTms := 0);
      }
    }

    method OnChange(items: Change)
      requires Valid() && Possible(State(), AChange(items))
      modifies this, store
      ensures Valid() && State() == Changed(old(State()), items)
    {
      hide Inv, Add;
      StepInv(State(), AChange(items));
      if (enabled || (fixed.buffered && everEnabled)) && items != map[] {
        AddChange(items);
      }
    }

    method OnGatherTimer(serial: nat)
      requires Valid()
      modifies this, store
      ensures Valid() && State() == GatherTimer(old(State()), serial)
    {
      hide Inv, Flush;
      StepInv(State(), AGatherTimer(serial));
      if pending.Some? && pending.value.serial == serial {
        FlushGathered();
      }
    }

    method OnIntegrityTimer(due: int, values: seq<AccessResult>, now: int)
      requires Valid() && Possible(State(), AnIntegrityTimer(due, values, now))
      modifies this, store
      ensures Valid() && State() == IntegrityTimer(old(State()), due, values, now)
    {
      hide Inv, Flush, ReportAll, ScheduleIntegrity;
      StepInv(State(), AnIntegrityTimer(due, values, now));
      if enabled && integrityDue == Some(due) {
        FlushGathered();
        Report(INTEGRITY, values);
        Schedule(now);
      }
    }
  }
}
