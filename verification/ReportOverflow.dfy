/**
 What BufOvfl tells a client. The engine compares an entry it drops with the highest EntryID
 sent; its documentation speaks of entries no client had been sent. The two agree in every
 report of every run in which no client, enabling the block with an EntryID beyond kept
 entries that nobody was sent, buries one of them; `ReportHiding` has the converse.
 */
module ReportOverflow {
  import opened Octets
  import opened ReportWire
  import opened Reporting
  import opened ReportBlock
  import opened ReportRuns
  import opened ReportSizes

  // --- what a report should say --------------------------------------------------------------

  predicate WasSent(reports: seq<SentReport>, id: nat) {
    exists i :: 0 <= i < |reports| && reports[i].entry.id == id
  }

  // An entry no client had been sent was dropped since the last report or purge.
  predicate Lost(trace: seq<Happening>) {
    exists i :: 0 <= i < |Since(trace)| && !WasSent(ReportsIn(trace), Since(trace)[i])
  }

  // BufOvfl as documented, in every report.
  predicate Honest(trace: seq<Happening>) {
    forall k :: 0 <= k < |trace| && trace[k].Reported? ==> (trace[k].report.bufOvfl <==> Lost(trace[..k]))
  }

  // A report says FALSE although an entry no client had been sent was dropped before it.
  predicate Hidden(trace: seq<Happening>) {
    exists k :: 0 <= k < |trace| && trace[k].Reported? && !trace[k].report.bufOvfl && Lost(trace[..k])
  }

  lemma {:induction false} SentIsBelow(trace: seq<Happening>, id: nat)
    requires WasSent(ReportsIn(trace), id)
    ensures id <= HighestSent(trace)
  {
    if trace != [] {
      var n := |trace| - 1;
      var before := ReportsIn(trace[..n]);
      var i :| 0 <= i < |ReportsIn(trace)| && ReportsIn(trace)[i].entry.id == id;
      if i < |before| {
        assert before[i].entry.id == id;
        SentIsBelow(trace[..n], id);
      }
    }
  }

  lemma AboveIsLost(trace: seq<Happening>)
    requires DroppedAbove(trace)
    ensures Lost(trace)
  {
    var i :| 0 <= i < |Since(trace)| && Since(trace)[i] > HighestSent(trace);
    if WasSent(ReportsIn(trace), Since(trace)[i]) {
      SentIsBelow(trace, Since(trace)[i]);
    }
  }

  // Whatever the clients do, a report that says TRUE is right.
  lemma OverflowIsNeverWrong(f: Fixed, config: Config, resvTms: int, es: seq<Event>, k: nat)
    requires TypedFixed(f) && PossibleRun(Fresh(f, config, resvTms), es)
    requires var trace := Run(Fresh(f, config, resvTms), es).store.trace;
             k < |trace| && trace[k].Reported? && trace[k].report.bufOvfl
    ensures Lost(Run(Fresh(f, config, resvTms), es).store.trace[..k])
  {
    hide Run, DroppedAbove, Lost;
    ReachableInv(f, config, resvTms, es);
    AboveIsLost(Run(Fresh(f, config, resvTms), es).store.trace[..k]);
  }

  lemma HonestOrHidden(trace: seq<Happening>)
    requires Told(trace)
    ensures Honest(trace) <==> !Hidden(trace)
  {
    hide DroppedAbove, Lost;
    forall k | 0 <= k < |trace| && DroppedAbove(trace[..k])
      ensures Lost(trace[..k])
    {
      AboveIsLost(trace[..k]);
    }
  }

  lemma HonestGrows(trace: seq<Happening>, h: Happening)
    requires Honest(trace) && (h.Reported? ==> (h.report.bufOvfl <==> Lost(trace)))
    ensures Honest(trace + [h])
  {
    hide Lost;
    var t := trace + [h];
    assert t[..|trace|] == trace;
    forall k | 0 <= k < |t| && t[k].Reported?
      ensures t[k].report.bufOvfl <==> Lost(t[..k])
    {
      if k < |trace| {
        assert t[..k] == trace[..k] && t[k] == trace[k];
      }
    }
  }

  // --- the buffer ------------------------------------------------------------------------------

  // What is kept, or was dropped since the last report, and is not above the mark, was sent.
  predicate KeptSound(s: Store) {
    forall i :: 0 <= i < |s.buffer| && s.buffer[i].id <= s.sent ==> WasSent(s.reports, s.buffer[i].id)
  }

  predicate DropsSound(s: Store) {
    forall i :: 0 <= i < |s.drops| && s.drops[i] <= s.sent ==> WasSent(s.reports, s.drops[i])
  }

  predicate Sound(s: Store) {
    KeptSound(s) && DropsSound(s)
  }

  predicate NoneAbove(s: Store) {
    forall i :: 0 <= i < |s.buffer| ==> s.buffer[i].id <= s.sent
  }

  // The flag is what the documentation says.
  lemma FlagIsLoss(f: Fixed, s: Store)
    requires StoreInv(f, s) && DropsSound(s)
    ensures f.buffered && s.overflowed <==> Lost(s.trace)
  {
    hide Tail, Bounded, Marked, Told, WasSent;
    FlagIsDrop(f, s);
    if DroppedAbove(s.trace) {
      AboveIsLost(s.trace);
    }
  }

  lemma {:induction false} TrimSound(f: Fixed, s: Store)
    requires Sound(s) && Honest(s.trace)
    ensures var t := Trimmed(f, s);
            && Sound(t) && Honest(t.trace) && t.sent == s.sent && t.reports == s.reports
            && (forall e :: e in t.buffer ==> e in s.buffer)
    decreases |s.buffer|
  {
    hide WasSent, Honest;
    if TooMuch(f, s) {
      var t := DropOldest(s);
      HonestGrows(s.trace, Dropped(s.buffer[0].id));
      assert forall i :: 0 <= i < |t.buffer| ==> t.buffer[i] == s.buffer[i + 1];
      TrimSound(f, t);
    }
  }

  // Sending an entry adds it to those sent.
  lemma SentGrows(f: Fixed, s: Store, to: Option<nat>, e: Entry, id: nat)
    requires f.modulo > 0
    ensures WasSent(Sent(f, s, to, e).reports, id) <==> WasSent(s.reports, id) || id == e.id
  {
    var t := Sent(f, s, to, e);
    assert t.reports[|s.reports|].entry == e;
    if WasSent(s.reports, id) {
      var i :| 0 <= i < |s.reports| && s.reports[i].entry.id == id;
      assert t.reports[i] == s.reports[i];
    }
  }

  lemma SendHonest(f: Fixed, s: Store, to: Option<nat>, e: Entry)
    requires StoreInv(f, s) && DropsSound(s) && Honest(s.trace)
    ensures DropsSound(Sent(f, s, to, e)) && Honest(Sent(f, s, to, e).trace)
  {
    hide StoreInv, Honest, Lost, DropsSound;
    FlagIsLoss(f, s);
    assert f.modulo > 0 by { StoreTyped(f, s); }
    HonestGrows(s.trace, Reported(SentReport(to, e, s.sqNum, f.buffered && s.overflowed)));
    NothingDropped(Sent(f, s, to, e));
  }

  lemma NothingDropped(s: Store)
    requires s.drops == []
    ensures DropsSound(s)
  {
  }

  // Sending the newest of the entries when all others kept are below the mark.
  lemma SendSound(f: Fixed, s: Store, to: Option<nat>, e: Entry)
    requires f.modulo > 0 && KeptSound(s) && forall i :: 0 <= i < |s.buffer| ==> s.buffer[i].id <= s.sent || s.buffer[i].id == e.id
    ensures KeptSound(Sent(f, s, to, e)) && NoneAbove(Sent(f, s, to, e))
  {
    hide WasSent;
    var t := Sent(f, s, to, e);
    forall i | 0 <= i < |t.buffer|
      ensures WasSent(t.reports, t.buffer[i].id)
    {
      SentGrows(f, s, to, e, t.buffer[i].id);
    }
  }

  // --- a new entry -----------------------------------------------------------------------------

  predicate Cramped(f: Fixed, s: Store, size: nat) {
    f.maxEntries < 2 || (s.buffer != [] && Size(s.buffer[|s.buffer| - 1]) + size > f.maxBytes)
  }

  lemma {:induction false} LastTwo(es: seq<Entry>)
    requires |es| >= 2
    ensures TotalSize(es) >= Size(es[|es| - 2]) + Size(es[|es| - 1])
  {
    if |es| == 2 {
      assert es[1..][1..] == [];
    } else {
      LastTwo(es[1..]);
    }
  }

  // An entry just made, kept.
  function NewKept(f: Fixed, s: Store, e: Entry): Store {
    Kept(f, s.(entries := s.entries + [e], next := s.next + 1), e).(entryId := e.id)
  }

  lemma EmittedIs(f: Fixed, s: Store, to: Option<nat>, width: nat, items: Change)
    requires f.modulo > 0 && f.buffered
    ensures var e := MakeEntry(s.next, width, items);
            && e.id == s.next
            && Emitted(f, s, true, to, width, items) == Sent(f, NewKept(f, s, e), to, e)
            && Emitted(f, s, false, to, width, items) == NewKept(f, s, e)
  {
    hide Kept, Sent;
    MadeId(s.next, width, items);
  }

  lemma NewestTwo(f: Fixed, s: Store, e: Entry)
    requires StoreInv(f, s) && f.buffered && e.id == s.next
    ensures var t := Kept(f, s.(entries := s.entries + [e], next := s.next + 1), e);
            && t.buffer != [] && t.buffer[|t.buffer| - 1] == e && Bounded(f, t) && t.bytes == TotalSize(t.buffer)
            && (|t.buffer| >= 2 ==> && s.buffer != []
                                    && t.bytes >= Size(s.buffer[|s.buffer| - 1]) + Size(e))
  {
    hide TotalSize, Trimmed, Marked, Logged, Size;
    KeepKeeps(f, s, e);
    var t := Kept(f, s.(entries := s.entries + [e], next := s.next + 1), e);
    if |t.buffer| >= 2 {
      LastTwo(t.buffer);
      var n := |t.entries|;
      assert t.buffer[|t.buffer| - 2] == t.entries[n - 2] == s.entries[n - 2];
      KeptMore(f, s, e);
    }
  }

  // Trimming keeps entries that were kept, and the new one.
  lemma KeptMore(f: Fixed, s: Store, e: Entry)
    requires StoreInv(f, s) && f.buffered && e.id == s.next
    ensures |Kept(f, s.(entries := s.entries + [e], next := s.next + 1), e).buffer| <= |s.buffer| + 1
  {
    hide TotalSize, Trimmed, Logged, Bounded;
    var u := Appended(s.(entries := s.entries + [e], next := s.next + 1), e);
    TrimShorter(f, u);
  }

  lemma {:induction false} TrimShorter(f: Fixed, s: Store)
    ensures |Trimmed(f, s).buffer| <= |s.buffer|
    decreases |s.buffer|
  {
    if TooMuch(f, s) {
      TrimShorter(f, DropOldest(s));
    }
  }

  // With no room beside it, a new entry drives out all the others.
  lemma CrampedAlone(f: Fixed, s: Store, e: Entry)
    requires StoreInv(f, s) && f.buffered && e.id == s.next && Cramped(f, s, Size(e))
    ensures NewKept(f, s, e).buffer == [e]
  {
    hide Kept, StoreInv, TotalSize, Size;
    NewestTwo(f, s, e);
  }

  lemma EntryIdKeeps(f: Fixed, s: Store, v: nat)
    requires StoreInv(f, s)
    ensures StoreInv(f, s.(entryId := v))
  {
    hide TotalSize, Told;
  }

  lemma KeepSound(f: Fixed, s: Store, e: Entry)
    requires StoreInv(f, s) && f.buffered && e.id == s.next && Sound(s) && Honest(s.trace)
    ensures var k := NewKept(f, s, e);
            && StoreInv(f, k) && Sound(k) && Honest(k.trace) && k.sent == s.sent
            && (forall i :: 0 <= i < |k.buffer| ==> k.buffer[i] in s.buffer || k.buffer[i] == e)
  {
    hide TotalSize, Trimmed, Honest, WasSent, Logged, Bounded, Size;
    KeepKeeps(f, s, e);
    var made := s.(entries := s.entries + [e], next := s.next + 1);
    EntryIdKeeps(f, Kept(f, made, e), e.id);
    var u := Appended(made, e);
    assert Sound(u) by {
      assert forall i :: 0 <= i < |u.buffer| ==> u.buffer[i] == if i < |s.buffer| then s.buffer[i] else e;
    }
    TrimSound(f, u);
    var k := NewKept(f, s, e);
    forall i | 0 <= i < |k.buffer|
      ensures k.buffer[i] in s.buffer || k.buffer[i] == e
    {
      assert k.buffer[i] in u.buffer;
    }
  }

  // Nothing but the new entry is left above the mark.
  lemma KeepClear(f: Fixed, s: Store, e: Entry)
    requires StoreInv(f, s) && f.buffered && e.id == s.next && Sound(s) && Honest(s.trace)
    requires NoneAbove(s) || Cramped(f, s, Size(e))
    ensures var k := NewKept(f, s, e); forall i :: 0 <= i < |k.buffer| ==> k.buffer[i].id <= k.sent || k.buffer[i].id == e.id
  {
    hide NewKept, StoreInv, Cramped, Size, Sound, Honest;
    KeepSound(f, s, e);
    if Cramped(f, s, Size(e)) {
      CrampedAlone(f, s, e);
    }
  }

  lemma SplitSound(s: Store)
    ensures Sound(s) <==> KeptSound(s) && DropsSound(s)
  {
  }

  lemma KeepsNothing(f: Fixed, s: Store)
    requires StoreInv(f, s) && !f.buffered
    ensures s.buffer == [] && Sound(s) && NoneAbove(s)
  {
    hide Tail, Bounded, Marked, Logged;
  }

  lemma EmitUnbuffered(f: Fixed, s: Store, enabled: bool, to: Option<nat>, width: nat, items: Change)
    requires StoreInv(f, s) && !f.buffered && Honest(s.trace)
    ensures f.modulo > 0
    ensures var t := Emitted(f, s, enabled, to, width, items); Sound(t) && Honest(t.trace) && NoneAbove(t)
  {
    StoreTyped(f, s);
    EmitKeeps(f, s, enabled, to, width, items);
    EmitKeeps(f, s, false, to, width, items);
    hide StoreInv, Honest, MakeEntry, Sound, NoneAbove, Kept;
    var made := Made(s, width, items);
    assert made == Emitted(f, s, false, to, width, items);
    KeepsNothing(f, Emitted(f, s, enabled, to, width, items));
    KeepsNothing(f, made);
    SplitSound(made);
    if enabled {
      SendHonest(f, made, to, MakeEntry(s.next, width, items));
    }
  }

  // An entry made, and sent when the block is enabled: what the report says is so, and the
  // mark passes no entry that was not sent, if none was above it or the new one drives all out.
  lemma EmitSafe(f: Fixed, s: Store, enabled: bool, to: Option<nat>, width: nat, items: Change)
    requires StoreInv(f, s) && Sound(s) && Honest(s.trace)
    requires enabled && f.buffered ==> NoneAbove(s) || Cramped(f, s, Size(MakeEntry(s.next, width, items)))
    ensures f.modulo > 0
    ensures var t := Emitted(f, s, enabled, to, width, items);
            Sound(t) && Honest(t.trace) && (enabled ==> NoneAbove(t))
  {
    StoreTyped(f, s);
    if f.buffered {
      EmittedIs(f, s, to, width, items);
    }
    hide StoreInv, Honest, MakeEntry, Sound, NoneAbove, KeptSound, DropsSound, Cramped, NewKept, Emitted, Size;
    var e := MakeEntry(s.next, width, items);
    var t := Emitted(f, s, enabled, to, width, items);
    if f.buffered {
      KeepSound(f, s, e);
      var k := NewKept(f, s, e);
      if enabled {
        KeepClear(f, s, e);
        SplitSound(k);
        SendHonest(f, k, to, e);
        SendSound(f, k, to, e);
      }
    } else {
      EmitUnbuffered(f, s, enabled, to, width, items);
    }
    if enabled {
      SplitSound(t);
    }
  }

  // --- enabling ----------------------------------------------------------------------------

  lemma {:induction false} SendingAll(f: Fixed, s: Store, to: Option<nat>, es: seq<Entry>, id: nat)
    requires f.modulo > 0
    ensures var t := SentAll(f, s, to, es);
            && (WasSent(t.reports, id) <==> WasSent(s.reports, id) || exists i :: 0 <= i < |es| && es[i].id == id)
            && t.buffer == s.buffer && t.drops == (if es == [] then s.drops else []) && t.next == s.next
            && t.sent >= s.sent && (forall i :: 0 <= i < |es| ==> es[i].id <= t.sent)
            && (t.sent == s.sent || exists i :: 0 <= i < |es| && es[i].id == t.sent)
  {
    hide WasSent;
    if es != [] {
      var n := |es| - 1;
      SendingAll(f, s, to, es[..n], id);
      SentGrows(f, SentAll(f, s, to, es[..n]), to, es[n], id);
      var before := SentAll(f, s, to, es[..n]);
      if before.sent != s.sent {
        var i :| 0 <= i < n && es[..n][i].id == before.sent;
        assert es[i].id == before.sent;
      }
      forall i | 0 <= i < |es|
        ensures es[i].id <= SentAll(f, s, to, es).sent
      {
        if i < n {
          assert es[..n][i] == es[i];
        }
      }
      if exists i :: 0 <= i < n && es[..n][i].id == id {
        var i :| 0 <= i < n && es[..n][i].id == id;
        assert es[i].id == id;
      }
      if exists i :: 0 <= i < |es| && es[i].id == id {
        var i :| 0 <= i < |es| && es[i].id == id;
        if i < n {
          assert es[..n][i].id == id;
        }
      }
    }
  }

  lemma {:induction false} AboveHolds(buffer: seq<Entry>, start: nat, id: nat)
    ensures (exists i :: 0 <= i < |AboveIn(buffer, start)| && AboveIn(buffer, start)[i].id == id)
       <==> id > start && exists i :: 0 <= i < |buffer| && buffer[i].id == id
  {
    if buffer != [] {
      var n := |buffer| - 1;
      AboveHolds(buffer[..n], start, id);
      var before, all := AboveIn(buffer[..n], start), AboveIn(buffer, start);
      if i :| 0 <= i < |all| && all[i].id == id {
        if i < |before| {
          assert before[i].id == id;
          var j :| 0 <= j < n && buffer[..n][j].id == id;
          assert buffer[j].id == id;
        } else {
          assert buffer[n].id == id;
        }
      }
      if i :| id > start && 0 <= i < |buffer| && buffer[i].id == id {
        if i < n {
          assert buffer[..n][i].id == id;
          var j :| 0 <= j < |before| && before[j].id == id;
          assert all[j].id == id;
        } else {
          assert all[|all| - 1].id == id;
        }
      }
    }
  }

  lemma AfterEnabling(f: Fixed, s: Store, to: Option<nat>, id: nat)
    requires f.modulo > 0
    ensures var t := SentAll(f, s, to, AboveIn(s.buffer, s.entryId));
            && (WasSent(t.reports, id) <==> WasSent(s.reports, id) || (id > s.entryId && exists i :: 0 <= i < |s.buffer| && s.buffer[i].id == id))
            && t.buffer == s.buffer && t.sent >= s.sent && (t.drops == s.drops || t.drops == [])
            && (t.sent == s.sent || t.sent > s.entryId)
            && (t.drops != [] ==> t.sent == s.sent)
            && (id > s.entryId && (exists i :: 0 <= i < |s.buffer| && s.buffer[i].id == id) ==> id <= t.sent)
  {
    hide WasSent, SentAll, AboveIn;
    var es := AboveIn(s.buffer, s.entryId);
    SendingAll(f, s, to, es, id);
    AboveHolds(s.buffer, s.entryId, id);
    var t := SentAll(f, s, to, es);
    if t.sent != s.sent {
      AboveHolds(s.buffer, s.entryId, t.sent);
    }
  }


  // The client asks to begin after kept entries that no client was sent.
  predicate Skipping(s: Store) {
    exists i :: 0 <= i < |s.buffer| && s.sent < s.buffer[i].id <= s.entryId
  }

  // Something kept is above EntryID: it will be sent.
  predicate Replays(s: Store) {
    exists i :: 0 <= i < |s.buffer| && s.buffer[i].id > s.entryId
  }

  predicate AllMade(s: Store, es: seq<Entry>) {
    forall i :: 0 <= i < |es| ==> 1 <= es[i].id <= |s.entries|
  }

  lemma {:induction false} SendAllHonest(f: Fixed, s: Store, to: Option<nat>, es: seq<Entry>)
    requires StoreInv(f, s) && DropsSound(s) && Honest(s.trace)
    requires AllMade(s, es)
    ensures f.modulo > 0 && DropsSound(SentAll(f, s, to, es)) && Honest(SentAll(f, s, to, es).trace)
  {
    StoreTyped(f, s);
    hide StoreInv, DropsSound, Honest, Sent;
    if es != [] {
      SendAllHonest(f, s, to, es[..|es| - 1]);
      SendAllKeeps(f, s, to, es[..|es| - 1]);
      SendHonest(f, SentAll(f, s, to, es[..|es| - 1]), to, es[|es| - 1]);
    }
  }

  // The reports of an enabling say what is so. Afterwards the mark has passed no entry that
  // was not sent, unless it skips one and sends others.
  lemma EnableSafe(f: Fixed, s: Store, to: Option<nat>)
    requires StoreInv(f, s) && Sound(s) && Honest(s.trace)
    ensures f.modulo > 0
    ensures var t := SentAll(f, s, to, AboveIn(s.buffer, s.entryId));
            && Honest(t.trace)
            && (!Skipping(s) ==> Sound(t) && NoneAbove(t))
            && (!Replays(s) ==> t == s)
  {
    hide StoreInv, Honest, WasSent, SentAll, AboveIn, AllMade;
    StoreTyped(f, s);
    AboveIds(f, s);
    SendAllHonest(f, s, to, AboveIn(s.buffer, s.entryId));
    var t := SentAll(f, s, to, AboveIn(s.buffer, s.entryId));
    AfterEnabling(f, s, to, 0);
    if !Skipping(s) {
      forall i | 0 <= i < |t.buffer|
        ensures t.buffer[i].id <= t.sent && WasSent(t.reports, t.buffer[i].id)
      {
        AfterEnabling(f, s, to, s.buffer[i].id);
      }
    }
    if !Replays(s) {
      NothingAbove(f, s, to);
    }
  }

  lemma AboveIds(f: Fixed, s: Store)
    requires StoreInv(f, s)
    ensures AllMade(s, AboveIn(s.buffer, s.entryId))
  {
    hide StoreInv, AboveIn, FirstAbove;
    BufferFits(f, s);
    assert Tail(s) by { StoreTail(f, s); }
    AboveIsTail(s, s.entryId, |s.buffer|);
    assert s.buffer[..|s.buffer|] == s.buffer;
    var k := FirstAbove(s, s.entryId);
    TailIds(f, s, k);
    assert AboveIn(s.buffer, s.entryId) == s.buffer[k..];
  }

  lemma StoreTail(f: Fixed, s: Store)
    requires StoreInv(f, s)
    ensures Tail(s)
  {
    hide Tail;
  }

  lemma NothingAbove(f: Fixed, s: Store, to: Option<nat>)
    requires f.modulo > 0 && !Replays(s)
    ensures SentAll(f, s, to, AboveIn(s.buffer, s.entryId)) == s
  {
    var es := AboveIn(s.buffer, s.entryId);
    if es != [] {
      assert es[0].id == es[0].id;
      AboveHolds(s.buffer, s.entryId, es[0].id);
    }
  }

  // --- a block ---------------------------------------------------------------------------------

  // The least octets of the next entry an enabled block can make.
  function LeastNext(b: Block): nat {
    if b.gathering.pending.Some? && b.config.bufTm > 0 then
      ContentSize(b.gathering.pending.value.items, b.gathering.pending.value.width)
    else SMALLEST_ENTRY
  }

  // Whatever the next entry, it drives out all that is kept. (A data set without members can
  // give empty entries.)
  predicate NoRoom(b: Block) {
    b.fixed.maxEntries < 2 || (b.config.members > 0 && Cramped(b.fixed, b.store, LeastNext(b)))
  }

  // Every report was right, and no entry that was not sent is, or can come to be, below the
  // mark without a client's doing.
  predicate Safe(b: Block) {
    && Sound(b.store) && Honest(b.store.trace)
    && (b.enabled ==> NoneAbove(b.store) || NoRoom(b))
  }

  // What is so once an entry has been made.
  predicate Clear(b: Block) {
    Sound(b.store) && Honest(b.store.trace) && (b.enabled ==> NoneAbove(b.store))
  }

  lemma ClearIsSafe(b: Block)
    requires Clear(b)
    ensures Safe(b)
  {
  }

  lemma MakesClear(b: Block, width: nat, items: Change)
    requires Inv(b) && Safe(b) && (b.enabled && NoRoom(b) ==> b.fixed.maxEntries < 2 || ContentSize(items, width) >= LeastNext(b))
    ensures Typed(b) && Clear(Emit(b, width, items))
  {
    IsTyped(b);
    hide HoldInv, GatherInv, StoreInv, Sound, Honest, NoneAbove, Emitted, Size, LeastNext, ContentSize, MakeEntry;
    EntrySize(b.store.next, width, items);
    EmitSafe(b.fixed, b.store, b.enabled, b.hold.owner, width, items);
  }

  // What gathers makes an entry of at least six octets.
  lemma PendingSize(b: Block)
    requires Inv(b) && b.gathering.pending.Some?
    ensures var g := b.gathering.pending.value; g.items != map[] && ContentSize(g.items, g.width) >= SMALLEST_ENTRY
  {
    hide StoreInv, HoldInv, GroupsMade, ContentSize, Apart;
    var g := b.gathering.pending.value;
    var k :| k in g.items;
    ContentAtLeast(g.items, g.width, k);
  }

  lemma FlushSafe(b: Block)
    requires Inv(b) && Safe(b)
    ensures Typed(b) && Safe(Flush(b)) && (b.gathering.pending.Some? ==> Clear(Flush(b)))
  {
    IsTyped(b);
    hide Inv, Sound, Honest, NoneAbove, Emitted, ContentSize, Cramped;
    if b.gathering.pending.Some? {
      var g := b.gathering.pending.value;
      PendingSize(b);
      MakesClear(b, g.width, g.items);
      ClearIsSafe(Flush(b));
    }
  }

  // A change that joins the gathering does not make the next entry smaller.
  lemma JoinedSafe(b: Block, items: Change)
    requires Inv(b) && Safe(b) && items != map[] && Below(items, b.config.members)
    requires b.gathering.pending.None? || !Overlap(items, b.gathering.pending.value.items)
    ensures Typed(b) && Safe(Joined(Begun(b), items))
  {
    IsTyped(b);
    hide Inv, Sound, Honest, NoneAbove, ContentSize;
    var r := Joined(Begun(b), items);
    var now := r.gathering.pending.value;
    if b.gathering.pending.Some? {
      var g := b.gathering.pending.value;
      ContentGrows(g.items, now.items, g.width, now.width);
    } else {
      assert map[] + items == items;
      var k :| k in items;
      ContentAtLeast(items, now.width, k);
    }
  }

  lemma AloneSafe(b: Block, items: Change)
    requires Inv(b) && Safe(b) && items != map[] && Below(items, b.config.members)
    requires b.config.bufTm == 0 || !b.enabled
    ensures Typed(b) && Safe(Alone(b, items))
  {
    IsTyped(b);
    hide Inv, Sound, Honest, NoneAbove, Emitted, ContentSize, Cramped;
    var k :| k in items;
    ContentAtLeast(items, b.config.members, k);
    MakesClear(b, b.config.members, items);
    SameStore(Emit(b, b.config.members, items), Alone(b, items));
  }

  lemma SameStore(b: Block, c: Block)
    requires Clear(b) && c.store == b.store && c.enabled == b.enabled
    ensures Safe(c)
  {
    hide Sound, Honest, NoneAbove, NoRoom;
  }

  lemma {:induction false} AddSafe(b: Block, items: Change)
    requires Inv(b) && Safe(b) && items != map[] && Below(items, b.config.members)
    ensures Typed(b) && Safe(Add(b, items))
    decreases if b.gathering.pending.Some? && Overlap(items, b.gathering.pending.value.items) then 1 else 0
  {
    IsTyped(b);
    hide Inv, Safe, Emitted, Below;
    if b.config.bufTm > 0 && b.enabled {
      if Overlap(items, Begun(b).gathering.pending.value.items) {
        FlushInv(b);
        FlushSafe(b);
        AddSafe(Flush(b), items);
      } else {
        JoinedSafe(b, items);
      }
    } else {
      AloneSafe(b, items);
    }
  }

  lemma AllSize(reason: Reason, values: seq<AccessResult>)
    ensures values != [] ==> ContentSize(EveryMember(reason, values), |values|) >= SMALLEST_ENTRY
  {
    hide ContentSize;
    if values != [] {
      ContentAtLeast(EveryMember(reason, values), |values|, 0);
    }
  }

  lemma ReportAllSafe(b: Block, reason: Reason, values: seq<AccessResult>)
    requires Inv(b) && Safe(b) && |values| == b.config.members
    ensures Typed(b) && Safe(ReportAll(Flush(b), reason, values))
  {
    IsTyped(b);
    hide Inv, Sound, Honest, NoneAbove, Emitted, ContentSize, Cramped, EveryMember;
    FlushInv(b);
    FlushSafe(b);
    AllSize(reason, values);
    var c := Flush(b);
    MakesClear(c, c.config.members, EveryMember(reason, values));
    ClearIsSafe(ReportAll(c, reason, values));
  }

  // --- whole runs ------------------------------------------------------------------------------

  // A client enables a BRCB with an EntryID beyond kept entries that no client was sent.
  predicate Skips(b: Block, e: Event) {
    match e
    case AWrite(c, RptEna(true), now) => b.fixed.buffered && !b.enabled && !HeldByOther(b.hold, c, now) && Skipping(b.store)
    case _ => false
  }

  // And either it is sent a later entry, or the next entry leaves room for the newest: the
  // mark passes an entry that was not sent.
  predicate Buries(b: Block, e: Event) {
    Skips(b, e) && (Replays(b.store) || !NoRoom(b))
  }

  lemma UnsafeOnly(b: Block, c: Block)
    requires Safe(b) && c.store == b.store && !c.enabled
    ensures Safe(c)
  {
  }

  // The same block but for its reservation and its timers.
  lemma StillSafe(b: Block, c: Block)
    requires Safe(b) && c == b.(hold := c.hold, everEnabled := c.everEnabled, integrityDue := c.integrityDue)
    ensures Safe(c)
  {
    hide Sound, Honest, NoneAbove, ContentSize, Cramped;
  }

  lemma PurgedSafe(s: Store)
    requires Honest(s.trace)
    ensures Sound(Purged(s)) && Honest(Purged(s).trace)
  {
    hide Honest;
    HonestGrows(s.trace, PurgedAll);
  }

  lemma WriteSafe(b: Block, c: Client, a: Attribute, now: int)
    requires Inv(b) && Safe(b) && !a.RptEna? && (a.Gi? ==> |a.values| == b.config.members)
    ensures Typed(b) && Safe(Write(b, c, a, now).0)
  {
    IsTyped(b);
    hide Inv, Sound, Honest, NoneAbove, NoRoom, Flush, ReportAll, Purged;
    var w := Write(b, c, a, now);
    if w.1.Done? {
      match a
      case PurgeBuf(_) => PurgedSafe(b.store);
      case Gi(_, values) => ReportAllSafe(b, GENERAL_INTERROGATION, values);
      case EntryId(v) => SoundEntryId(b.store, v);
      case _ =>
    }
  }

  lemma SoundEntryId(s: Store, v: nat)
    requires Sound(s)
    ensures Sound(s.(entryId := v))
  {
  }

  lemma EnablingSafe(b: Block, c: Client, now: int)
    requires Inv(b) && Safe(b) && !b.enabled && !HeldByOther(b.hold, c, now)
    ensures Typed(b)
    ensures var r := Step(b, AWrite(c, RptEna(true), now));
            && Honest(r.store.trace) && r.enabled && r.config == b.config
            && (!Buries(b, AWrite(c, RptEna(true), now)) ==> Safe(r))
  {
    IsTyped(b);
    EnablingStep(b, c, now);
    EnabledShape(b, c, now);
    ShapeRest(b, c, now);
    hide HoldInv, GatherInv, StoreInv, Sound, Honest, NoneAbove, SentAll, AboveIn, Skipping, Replays, Step, Enabled, Taken,
         ContentSize, Cramped;
    if b.fixed.buffered {
      EnableSafe(b.fixed, b.store, Some(c.id));
    } else {
      KeepsNothing(b.fixed, b.store);
    }
  }

  lemma ShapeRest(b: Block, c: Client, now: int)
    requires Typed(b)
    ensures var r := Enabled(Taken(b, c).(enabled := true), now); r.gathering == b.gathering && r.config == b.config
  {
    hide SentAll, AboveIn;
  }

  lemma SwitchSafe(b: Block, c: Client, on: bool, now: int)
    requires Inv(b) && Safe(b)
    ensures Typed(b) && Honest(Step(b, AWrite(c, RptEna(on), now)).store.trace)
    ensures !Buries(b, AWrite(c, RptEna(on), now)) ==> Safe(Step(b, AWrite(c, RptEna(on), now)))
  {
    IsTyped(b);
    hide StoreInv, GatherInv, Sound, Honest, NoneAbove, NoRoom, Flush, Buries, Enabled, Taken;
    if !HeldByOther(b.hold, c, now) {
      if on && !b.enabled {
        EnablingSafe(b, c, now);
      } else if !on && b.enabled {
        var d := b.(enabled := false);
        HoldChanges(b, d);
        UnsafeOnly(b, d);
        FlushSafe(d);
        StillSafe(Flush(d), Flush(d).(integrityDue := None));
      }
    }
  }

  lemma TimersSafe(b: Block, serial: nat, due: int, values: seq<AccessResult>, now: int)
    requires Inv(b) && Safe(b)
    ensures Typed(b) && Safe(GatherTimer(b, serial))
    ensures |values| == b.config.members ==> Safe(IntegrityTimer(b, due, values, now))
  {
    IsTyped(b);
    hide Inv, Safe, Flush, ReportAll;
    FlushSafe(b);
    if |values| == b.config.members {
      ReportAllSafe(b, INTEGRITY, values);
      var r := ReportAll(Flush(b), INTEGRITY, values);
      StillSafe(r, ScheduleIntegrity(r, now));
    }
  }

  // Every step's reports are right, and only a burying step can make later ones wrong.
  lemma StepSafe(b: Block, e: Event)
    requires Inv(b) && Possible(b, e) && Safe(b)
    ensures Typed(b) && Honest(Step(b, e).store.trace)
    ensures !Buries(b, e) ==> Safe(Step(b, e))
  {
    IsTyped(b);
    if e.AWrite? && e.attribute.RptEna? {
      SwitchSafe(b, e.client, e.attribute.on, e.now);
    } else {
      assert !Buries(b, e);
      hide Inv, Sound, Honest, NoneAbove, NoRoom, Write, GatherTimer, IntegrityTimer, Buries, Add;
      match e
      case AWrite(c, a, now) => WriteSafe(b, c, a, now);
      case AClose(id, now) => UnsafeOrSame(b, Close(b, id, now));
      case ALapse(due) => StillSafe(b, Lapse(b, due));
      case AChange(items) =>
        if items != map[] {
          AddSafe(b, items);
        }
      case AGatherTimer(serial) => TimersSafe(b, serial, 0, [], 0);
      case AnIntegrityTimer(due, values, now) => TimersSafe(b, 0, due, values, now);
    }
  }

  lemma UnsafeOrSame(b: Block, c: Block)
    requires Safe(b) && (c == b || (c.store == b.store && !c.enabled))
    ensures Safe(c)
  {
  }

  ghost predicate NeverBuries(b: Block, es: seq<Event>)
    requires Typed(b)
  {
    es == [] || (NeverBuries(b, es[..|es| - 1]) && !Buries(Run(b, es[..|es| - 1]), es[|es| - 1]))
  }

  lemma {:induction false} RunSafe(b: Block, es: seq<Event>)
    requires Inv(b) && Typed(b) && PossibleRun(b, es) && NeverBuries(b, es) && Safe(b)
    ensures Safe(Run(b, es))
  {
    hide Inv, Safe, Step, Buries;
    if es != [] {
      RunSafe(b, es[..|es| - 1]);
      RunInv(b, es[..|es| - 1]);
      StepSafe(Run(b, es[..|es| - 1]), es[|es| - 1]);
    }
  }

  // Over any run in which no client buries an unsent entry, BufOvfl is TRUE in a report
  // exactly when an entry no client had been sent was dropped since the report before, or the
  // last purge.
  lemma OverflowOverRuns(f: Fixed, config: Config, resvTms: int, es: seq<Event>)
    requires TypedFixed(f) && PossibleRun(Fresh(f, config, resvTms), es) && NeverBuries(Fresh(f, config, resvTms), es)
    ensures Safe(Run(Fresh(f, config, resvTms), es)) && Honest(Run(Fresh(f, config, resvTms), es).store.trace)
  {
    hide Inv, Run, NeverBuries, PossibleRun;
    var b := Fresh(f, config, resvTms);
    FreshInv(f, config, resvTms);
    RunSafe(b, es);
  }
}
