/**
 What a client's requests do to a report control block (`server/reporting.py`): which are
 granted, what each granted one changes and leaves alone, what a closed connection and a lapsed
 reservation leave, and over whole runs who holds the block and whether it is enabled.
 */
module ReportRequests {
  import opened Octets
  import opened ReportWire
  import opened Reporting
  import opened ReportBlock
  import opened ReportRuns
  import opened ReportChanges

  // --- answers -------------------------------------------------------------------------------

  // Someone else holds the block, or it is kept for a client at another address.
  predicate KeptFrom(b: Block, c: Client, now: int) {
    || (b.hold.owner.Some? && b.hold.owner.value != c.id)
    || (b.hold.owner.None? && b.hold.until.Some? && now < b.hold.until.value && c.address != b.hold.address)
  }

  predicate Missing(b: Block, a: Attribute) {
    if b.fixed.buffered then a.Resv? else a.PurgeBuf? || a.EntryId? || a.ResvTms?
  }

  // While the block is enabled its owner may interrogate and disable it, and no more.
  predicate Locked(b: Block, a: Attribute) {
    b.enabled && !(a.RptEna? || a.Gi? || a.ReadOnly?)
  }

  // The answer to every write; what is not granted changes nothing.
  lemma Answering(b: Block, c: Client, a: Attribute, now: int)
    requires Typed(b)
    ensures var (r, answer) := Write(b, c, a, now);
            && (answer == NonExistent <==> Missing(b, a))
            && (answer == Unavailable <==> !Missing(b, a) && (KeptFrom(b, c, now) || Locked(b, a)))
            && (answer == Denied <==> a.ReadOnly? && !KeptFrom(b, c, now))
            && (answer != Done ==> r == b)
  {
    hide Flush, SentAll, AboveIn, ReportAll, Taken, Released;
  }

  // --- who holds the block -------------------------------------------------------------------

  predicate Holds(h: Hold, c: Client) {
    h.owner == Some(c.id) && h.address == c.address && h.until.None?
  }

  predicate Free(h: Hold) {
    h.owner.None? && h.address.None? && h.until.None?
  }

  // Resv TRUE, or any reservation time but 0, reserves the block for the client; Resv FALSE and
  // the time 0 free it, the time only for its owner.
  lemma Reserving(b: Block, c: Client, now: int, on: bool, seconds: int)
    requires Typed(b)
    ensures Write(b, c, Resv(on), now).1 == Done ==>
              var r := Step(b, AWrite(c, Resv(on), now));
              && r == b.(hold := r.hold) && r.hold.resvTms == b.hold.resvTms && !b.fixed.buffered
              && (if on then Holds(r.hold, c) && r.hold.resv else Free(r.hold) && !r.hold.resv)
    ensures Write(b, c, ResvTms(seconds), now).1 == Done ==>
              var r := Step(b, AWrite(c, ResvTms(seconds), now));
              && r == b.(hold := r.hold) && r.hold.resvTms == seconds && b.fixed.buffered && r.hold.resv == b.hold.resv
              && (if seconds != 0 then Holds(r.hold, c)
                  else if b.hold.owner == Some(c.id) then Free(r.hold)
                  else r.hold == b.hold.(resvTms := 0))
  {
    hide Flush, SentAll, AboveIn, ReportAll;
  }

  // The owner's connection closes: the block is disabled and no integrity report is due; a BRCB
  // with a reservation time stays kept for the owner's address that long, any other block is
  // free. What is gathered stays gathered.
  lemma Leaving(b: Block, id: nat, now: int)
    requires Typed(b)
    ensures var r := Step(b, AClose(id, now));
            if b.hold.owner != Some(id) then r == b
            else
              && r == b.(enabled := false, integrityDue := None, hold := r.hold)
              && r.hold.owner.None? && r.hold.resvTms == b.hold.resvTms
              && (if b.fixed.buffered && b.hold.resvTms > 0 then
                    && r.hold.until == Some(now + b.hold.resvTms) && r.hold.address == b.hold.address
                    && r.hold.resv == b.hold.resv
                  else Free(r.hold) && (!b.fixed.buffered ==> !r.hold.resv))
  {
    hide Flush, SentAll, AboveIn, ReportAll;
  }

  // The reservation of a client that left lapses at its time and no other: the block is free,
  // its reservation time 0.
  lemma Lapsing(b: Block, due: int)
    requires Typed(b)
    ensures var r := Step(b, ALapse(due));
            if b.hold.owner.None? && b.hold.until == Some(due) then
              && r == b.(hold := r.hold) && Free(r.hold) && r.hold.resvTms == 0
              && (b.fixed.buffered ==> r.hold.resv == b.hold.resv)
            else r == b
  {
    hide Flush, SentAll, AboveIn, ReportAll;
  }

  // A client that left with a reservation comes back to its block until the reservation lapses,
  // from its own address; from any other address it is refused until then.
  lemma ComingBack(b: Block, id: nat, now: int, c: Client, later: int, a: Attribute)
    requires Typed(b) && b.hold.owner == Some(id) && b.fixed.buffered && b.hold.resvTms > 0
    requires !Missing(b, a) && !a.ReadOnly?
    ensures var left := Step(b, AClose(id, now));
            Write(left, c, a, later).1
            == if c.address == b.hold.address || later >= now + b.hold.resvTms then Done else Unavailable
  {
    hide Flush, SentAll, AboveIn, ReportAll, Taken;
    Leaving(b, id, now);
    Answering(Step(b, AClose(id, now)), c, a, later);
  }

  // --- the buffer and the configuration ------------------------------------------------------

  // PurgeBuf empties the buffer and forgets what was lost; entries go on being numbered as
  // before, and EntryID stays.
  lemma Purging(b: Block, c: Client, on: bool, now: int)
    requires Typed(b) && Write(b, c, PurgeBuf(on), now).1 == Done
    ensures var r := Step(b, AWrite(c, PurgeBuf(on), now));
            if !on then r == b
            else
              && r == b.(store := r.store) && r.store.buffer == [] && r.store.bytes == 0 && !r.store.overflowed
              && r.store.next == b.store.next && r.store.entries == b.store.entries && r.store.entryId == b.store.entryId
              && r.store.sqNum == b.store.sqNum && r.store.sent == b.store.sent && r.store.reports == b.store.reports
  {
  }

  // EntryID and the configuration are what was written last, and nothing else changes.
  lemma Configuring(b: Block, c: Client, now: int, id: nat, config: Config)
    requires Typed(b)
    ensures Write(b, c, EntryId(id), now).1 == Done ==>
              Step(b, AWrite(c, EntryId(id), now)) == b.(store := b.store.(entryId := id))
    ensures Write(b, c, Configure(config), now).1 == Done ==>
              Step(b, AWrite(c, Configure(config), now)) == b.(config := config)
  {
    hide Flush, SentAll, AboveIn, ReportAll;
  }

  // --- enabling ------------------------------------------------------------------------------

  // RptEna TRUE reserves and enables a block that is not enabled: a BRCB's client is sent the
  // kept entries above EntryID, none is made, and the integrity period begins if there is to be
  // one.
  lemma Enabling(b: Block, c: Client, now: int)
    requires Inv(b) && Write(b, c, RptEna(true), now).1 == Done
    ensures Typed(b) && |b.store.buffer| <= |b.store.entries|
    ensures var r := Step(b, AWrite(c, RptEna(true), now));
            if b.enabled then r == b
            else
              && r.enabled && r.everEnabled && Holds(r.hold, c) && r.hold.resvTms == b.hold.resvTms
              && r.config == b.config && r.gathering == b.gathering && r.store.entries == b.store.entries
              && r.store.buffer == b.store.buffer && r.store.entryId == b.store.entryId
              && SentFrom(b.store, r.store, Some(c.id),
                          if b.fixed.buffered then b.store.buffer[FirstAbove(b.store, b.store.entryId)..] else [])
              && r.integrityDue == (if b.config.intgPd > 0 && b.config.wantsIntegrity then Some(now + b.config.intgPd)
                                    else b.integrityDue)
  {
    IsTyped(b);
    BufferFits(b.fixed, b.store) by { InvStores(b); }
    hide Inv, SentFrom, SentAll, AboveIn, Step, Write;
    EnablesBy(b, c, now);
    if !b.enabled {
      EnabledInv(b, c, now);
      EnabledLeaves(b, c, now);
    }
  }

  lemma InvStores(b: Block)
    requires Inv(b)
    ensures StoreInv(b.fixed, b.store)
  {
    hide HoldInv, GatherInv, StoreInv;
  }

  lemma EnablesBy(b: Block, c: Client, now: int)
    requires Typed(b) && Write(b, c, RptEna(true), now).1 == Done
    ensures Step(b, AWrite(c, RptEna(true), now)) == if b.enabled then b else Enabled(Taken(b, c).(enabled := true), now)
  {
    hide Enabled, Taken;
  }

  lemma EnabledLeaves(b: Block, c: Client, now: int)
    requires Typed(b)
    ensures var r := Enabled(Taken(b, c).(enabled := true), now);
            && Holds(r.hold, c) && r.hold.resvTms == b.hold.resvTms && r.config == b.config && r.gathering == b.gathering
            && r.everEnabled && r.store.buffer == b.store.buffer && r.store.entryId == b.store.entryId
            && r.integrityDue == (if b.config.intgPd > 0 && b.config.wantsIntegrity then Some(now + b.config.intgPd)
                                  else b.integrityDue)
  {
    hide AboveIn, SentAll;
    SendsOnly(b.fixed, b.store, Some(c.id), AboveIn(b.store.buffer, b.store.entryId));
  }

  lemma {:induction false} SendsOnly(f: Fixed, s: Store, to: Option<nat>, es: seq<Entry>)
    requires f.modulo > 0
    ensures var t := SentAll(f, s, to, es); t.buffer == s.buffer && t.entryId == s.entryId
  {
    if es != [] {
      SendsOnly(f, s, to, es[..|es| - 1]);
    }
  }

  // --- over whole runs -----------------------------------------------------------------------

  // What the granted requests and the closed connections say: whose the block is, whether it is
  // enabled, and whether it ever was.
  datatype Said = Said(owner: Option<nat>, enabled: bool, ever: bool)

  predicate Granted(b: Block, e: Event)
    requires Typed(b)
  {
    e.AWrite? && Write(b, e.client, e.attribute, e.now).1 == Done
  }

  function SayOne(s: Said, e: Event, granted: bool): Said {
    match e
    case AClose(id, _) => if s.owner == Some(id) then Said(None, false, s.ever) else s
    case AWrite(c, a, _) =>
      if !granted then s
      else
        (match a
         case RptEna(on) => if on then (if s.enabled then s else Said(Some(c.id), true, true)) else s.(enabled := false)
         case Resv(on) => s.(owner := if on then Some(c.id) else None)
         case ResvTms(seconds) =>
           if seconds != 0 then s.(owner := Some(c.id)) else if s.owner == Some(c.id) then s.(owner := None) else s
         case _ => s)
    case _ => s
  }

  function Saying(b: Block, es: seq<Event>): Said
    requires Typed(b)
  {
    if es == [] then Said(b.hold.owner, b.enabled, b.everEnabled)
    else
      var most := es[..|es| - 1];
      SayOne(Saying(b, most), es[|es| - 1], Granted(Run(b, most), es[|es| - 1]))
  }

  predicate Agrees(b: Block, s: Said) {
    b.hold.owner == s.owner && b.enabled == s.enabled && b.everEnabled == s.ever
  }

  lemma WriteAgrees(b: Block, c: Client, a: Attribute, now: int, s: Said)
    requires Inv(b) && Agrees(b, s)
    ensures Typed(b)
    ensures Agrees(Step(b, AWrite(c, a, now)), SayOne(s, AWrite(c, a, now), Granted(b, AWrite(c, a, now))))
  {
    IsTyped(b);
    hide Inv, Write, Step, Makes, Waiting, Whole, SentFrom;
    if Write(b, c, a, now).1.Done? {
      match a
      case RptEna(on) => if on { Enabling(b, c, now); } else { Disabling(b, c, now); }
      case Gi(on, values) => Interrogating(b, c, on, values, now);
      case PurgeBuf(on) => Purging(b, c, on, now);
      case EntryId(v) => Configuring(b, c, now, v, b.config);
      case Configure(config) => Configuring(b, c, now, 0, config);
      case Resv(on) => Reserving(b, c, now, on, 0);
      case ResvTms(v) => Reserving(b, c, now, false, v);
      case ReadOnly => Answering(b, c, a, now);
    } else {
      Refusal(b, c, a, now);
    }
  }

  lemma Refusal(b: Block, c: Client, a: Attribute, now: int)
    requires Typed(b) && !Write(b, c, a, now).1.Done?
    ensures Step(b, AWrite(c, a, now)) == b
  {
    hide Written;
  }

  lemma StepAgrees(b: Block, e: Event, s: Said)
    requires Inv(b) && Typed(b) && Possible(b, e) && Agrees(b, s)
    ensures Agrees(Step(b, e), SayOne(s, e, Granted(b, e)))
  {
    hide Inv, Write, Makes, Waiting, TakesUp, Step, Granted;
    match e
    case AWrite(c, a, now) => WriteAgrees(b, c, a, now, s);
    case AClose(id, now) => Leaving(b, id, now);
    case ALapse(due) => Lapsing(b, due);
    case AChange(items) => Changing(b, items);
    case AGatherTimer(serial) => TimeIsUp(b, serial);
    case AnIntegrityTimer(due, values, now) => PeriodIsOver(b, due, values, now);
  }

  // In every run the owner is the last to whom the block was granted and who has neither given
  // it back nor gone, and it is enabled exactly from a granted RptEna TRUE to the owner's FALSE
  // or departure; so a BRCB takes up changes exactly since it was first enabled.
  lemma {:induction false} RunAgrees(b: Block, es: seq<Event>)
    requires Inv(b) && Typed(b) && PossibleRun(b, es)
    ensures Agrees(Run(b, es), Saying(b, es))
    ensures Listens(Run(b, es)) <==> Saying(b, es).enabled || (b.fixed.buffered && Saying(b, es).ever)
  {
    hide Inv, Step, SayOne, Granted;
    if es != [] {
      var most := es[..|es| - 1];
      RunAgrees(b, most);
      RunInv(b, most);
      StepAgrees(Run(b, most), es[|es| - 1], Saying(b, most));
    }
  }
}
