/**
 What a supervisor says of a GOOSE message (`supervision.py`): each kind of event exactly when
 its condition holds, what losses and late messages are counted as, and when a stream is
 silent.
 */
module GooseVerdicts {
  import opened Modulo
  import opened Octets
  import opened Data
  import opened Goose
  import opened GoosePublisher
  import opened Supervision
  import opened GooseComposition
  import opened GoosePublications

  // --- one message ---------------------------------------------------------------------------

  // A counter is newer when it is greater, or when it went on from 2^32 - 1.
  predicate NewerState(was: nat, now: nat) {
    now > was || (was == 0xFFFF_FFFF && now >= 1)
  }

  predicate NewerMessage(was: nat, now: nat) {
    now > was || (was == 0xFFFF_FFFF && now <= 1)
  }

  // Some value is encoded otherwise, or there are more or fewer.
  ghost predicate OtherValues(was: seq<Value>, values: seq<Value>) {
    |was| != |values| || exists i :: 0 <= i < |was| && EncodeData(was[i]) != EncodeData(values[i])
  }

  lemma ChangedIsOther(was: seq<Value>, values: seq<Value>)
    ensures EntriesChanged(was, values) <==> OtherValues(was, values)
  {
    if |was| == |values| && OtherValues(was, values) {
      var i :| 0 <= i < |was| && EncodeData(was[i]) != EncodeData(values[i]);
      assert was[i] != values[i];
    }
  }

  // What the counters of a message say of the stream: each event exactly when it should be.
  lemma FollowSays(s: Supervision.Stream, p: Pdu)
    ensures var (t, accept, events) := FollowGoose(s, p);
            var st, sq := s.last.header.stNum, s.last.header.sqNum;
            var same := p.header.stNum == st;
            && (Has(events, StateChange) <==> !same && NewerState(st, p.header.stNum))
            && (Has(events, Restart) <==> !same && !NewerState(st, p.header.stNum))
            && (Has(events, Gap) <==> same && p.header.sqNum > sq + 1 && !(sq == 0xFFFF_FFFF && p.header.sqNum <= 1))
            && (Has(events, Duplicate) <==> same && !NewerMessage(sq, p.header.sqNum) && p.header.sqNum in s.recent)
            && (Has(events, OutOfOrder) <==> same && !NewerMessage(sq, p.header.sqNum) && p.header.sqNum !in s.recent)
            && (Has(events, DataWithoutStateChange) <==>
                  same && NewerMessage(sq, p.header.sqNum) && OtherValues(s.last.allData, p.allData))
            && (accept <==> !same || NewerMessage(sq, p.header.sqNum))
            && (forall i :: 0 <= i < |events| ==>
                  events[i].kind in [StateChange, Restart, Gap, Duplicate, OutOfOrder, DataWithoutStateChange])
  {
    hide EntriesChanged, OtherValues;
    ChangedIsOther(s.last.allData, p.allData);
    var (t, accept, events) := FollowGoose(s, p);
    if events != [] {
      assert events[0].kind == events[0].kind && events[|events| - 1].kind == events[|events| - 1].kind;
    }
  }

  // The same configuration, flags and count of entries.
  lemma ConfigSays(was: Header, h: Header)
    ensures var events := ConfigEvents(was, h);
            && (Has(events, ConfigChanged) <==>
                  h.confRev != was.confRev || h.datSet != was.datSet || h.goId != was.goId || h.entries != was.entries)
            && (Has(events, SimulationFlag) <==> h.simulation != was.simulation)
            && (Has(events, NdsComFlag) <==> h.ndsCom != was.ndsCom)
            && (forall i :: 0 <= i < |events| ==> events[i].kind in [ConfigChanged, SimulationFlag, NdsComFlag])
  {
    var events := ConfigEvents(was, h);
    if events != [] {
      assert events[0].kind == events[0].kind && events[|events| - 1].kind == events[|events| - 1].kind;
      if |events| == 3 {
        assert events[1].kind == SimulationFlag;
      }
    }
  }

  // Of a message of a known stream: what its counters and its configuration say, a silence that
  // is over, and a count of entries that is wrong for the first time. It is counted, and
  // whatever it is the stream was heard; it is the reference unless it is late.
  lemma FeedSays(s: Supervision.Stream, p: Pdu, now: int, kind: Kind)
    ensures var (u, events) := Feed(Some(s), p, now);
            var (t, accept, followed) := FollowGoose(s.(timedOut := false), p);
            && (Has(events, kind) <==>
                  || (kind == Resumed && s.timedOut)
                  || Has(ConfigEvents(s.last.header, p.header), kind)
                  || Has(followed, kind)
                  || (kind == Inconsistent && p.header.entries != |p.allData|
                      && s.last.header.entries == |s.last.allData|))
            && u.lastSeen == now && u.messages == s.messages + 1 && !u.timedOut && u.missed == t.missed
            && u.last == (if accept then p else s.last)
  {
    var resumed := EventIf(s.timedOut, Resumed);
    var config := ConfigEvents(s.last.header, p.header);
    var (t, accept, followed) := FollowGoose(s.(timedOut := false), p);
    var odd := EventIf(!Consistent(p) && Consistent(s.last), Inconsistent);
    StaysHeard(s.(timedOut := false), p);
    hide ConfigEvents, FollowGoose;
    HasConcat(resumed, config, kind);
    HasConcat(resumed + config, followed, kind);
    HasConcat(resumed + config + followed, odd, kind);
    IfHas(s.timedOut, Resumed, kind);
    IfHas(!Consistent(p) && Consistent(s.last), Inconsistent, kind);
  }

  lemma StaysHeard(s: Supervision.Stream, p: Pdu)
    ensures var t := FollowGoose(s, p).0; t == s.(recent := t.recent, missed := t.missed)
  {
    hide EntriesChanged;
  }

  function Rank(kind: Kind): nat {
    match kind
    case NewStream => 0
    case Resumed => 0
    case ConfigChanged => 1
    case SimulationFlag => 2
    case NdsComFlag => 3
    case DataWithoutStateChange => 5
    case Inconsistent => 6
    case _ => 4
  }

  predicate Ranked(events: seq<Supervision.Event>) {
    forall i, j :: 0 <= i < j < |events| ==> Rank(events[i].kind) < Rank(events[j].kind)
  }

  predicate Within(events: seq<Supervision.Event>, lo: nat, hi: nat) {
    Ranked(events) && forall i :: 0 <= i < |events| ==> lo <= Rank(events[i].kind) <= hi
  }

  lemma RankedJoin(a: seq<Supervision.Event>, b: seq<Supervision.Event>, lo: nat, mid: nat, hi: nat)
    requires Within(a, lo, mid) && Within(b, mid + 1, hi) && lo <= mid < hi
    ensures Within(a + b, lo, hi)
  {
  }

  // Each is said once at most, and in this order: what was silence, what is configured, what the
  // counters say, what the entries are.
  lemma SaidInOrder(known: Option<Supervision.Stream>, p: Pdu, now: int)
    ensures Ranked(Feed(known, p, now).1)
  {
    match known
    case None => OpensInOrder(p, now);
    case Some(s) =>
      hide *;
      FollowsInOrder(s.(timedOut := false), p);
      ConfigInOrder(s.last.header, p.header);
      OneWithin(s.timedOut, Resumed, 0);
      OneWithin(!Consistent(p) && Consistent(s.last), Inconsistent, 6);
      JoinedInOrder(EventIf(s.timedOut, Resumed), ConfigEvents(s.last.header, p.header),
                    FollowGoose(s.(timedOut := false), p).2, EventIf(!Consistent(p) && Consistent(s.last), Inconsistent));
      SaidOfKnown(s, p, now);
  }

  lemma SaidOfKnown(s: Supervision.Stream, p: Pdu, now: int)
    ensures Feed(Some(s), p, now).1
         == EventIf(s.timedOut, Resumed) + ConfigEvents(s.last.header, p.header)
            + FollowGoose(s.(timedOut := false), p).2 + EventIf(!Consistent(p) && Consistent(s.last), Inconsistent)
  {
    hide ConfigEvents, FollowGoose, EventIf, Consistent;
  }

  lemma JoinedInOrder(a: seq<Supervision.Event>, b: seq<Supervision.Event>, c: seq<Supervision.Event>,
                      d: seq<Supervision.Event>)
    requires Within(a, 0, 0) && Within(b, 1, 3) && Within(c, 4, 5) && Within(d, 6, 6)
    ensures Ranked(a + b + c + d)
  {
    RankedJoin(a, b, 0, 0, 3);
    RankedJoin(a + b, c, 0, 3, 5);
    RankedJoin(a + b + c, d, 0, 5, 6);
    hide Within;
    WithinRanked(a + b + c + d, 0, 6);
  }

  lemma WithinRanked(events: seq<Supervision.Event>, lo: nat, hi: nat)
    requires Within(events, lo, hi)
    ensures Ranked(events)
  {
  }

  lemma OneWithin(condition: bool, kind: Kind, rank: nat)
    requires (kind == Resumed && rank == 0) || (kind == Inconsistent && rank == 6)
    ensures Within(EventIf(condition, kind), rank, rank)
  {
  }

  lemma ConfigInOrder(was: Header, h: Header)
    ensures Within(ConfigEvents(was, h), 1, 3)
  {
  }

  lemma FollowsInOrder(s: Supervision.Stream, p: Pdu)
    ensures Within(FollowGoose(s, p).2, 4, 5)
  {
    hide EntriesChanged;
  }

  lemma OpensInOrder(p: Pdu, now: int)
    ensures Ranked(Feed(None, p, now).1)
  {
  }

  // The first message of a stream makes it known, with the flags it begins with.
  lemma OpeningSays(p: Pdu, now: int, kind: Kind)
    ensures var (s, events) := Feed(None, p, now);
            && (Has(events, kind) <==>
                  || kind == NewStream || (kind == SimulationFlag && p.header.simulation)
                  || (kind == NdsComFlag && p.header.ndsCom) || (kind == Inconsistent && p.header.entries != |p.allData|))
            && s == Supervision.Stream(now, p, 1, 0, false, [p.header.sqNum])
  {
    var start := [Supervision.Event(NewStream, 0)];
    assert start[0].kind == NewStream;
    var sim, nds := EventIf(p.header.simulation, SimulationFlag), EventIf(p.header.ndsCom, NdsComFlag);
    HasConcat(start, sim, kind);
    HasConcat(start + sim, nds, kind);
    HasConcat(start + sim + nds, EventIf(!Consistent(p), Inconsistent), kind);
    IfHas(p.header.simulation, SimulationFlag, kind);
    IfHas(p.header.ndsCom, NdsComFlag, kind);
    IfHas(!Consistent(p), Inconsistent, kind);
  }

  // A stream is silent once nothing was heard for longer than its last message allows, and that
  // is said once until it is heard again.
  lemma SilenceSays(s: Supervision.Stream, now: int)
    ensures var (t, events) := Checked(s, now);
            && (Has(events, TimedOut) <==> !s.timedOut && now - s.lastSeen > s.last.header.tal * 1_000_000)
            && (events == [] || events == [Supervision.Event(TimedOut, 0)])
            && t == s.(timedOut := s.timedOut || now - s.lastSeen > s.last.header.tal * 1_000_000)
            && forall later: int :: t.timedOut ==> Checked(t, later) == (t, [])
  {
    if !s.timedOut && now > Deadline(s) {
      assert [Supervision.Event(TimedOut, 0)][0].kind == TimedOut;
    }
  }

  // --- losses --------------------------------------------------------------------------------

  // No counter wraps in the log.
  predicate NoWrap(log: seq<Sending>) {
    |log| < 0xFFFF_FFFF
  }

  lemma {:induction false} PlacesGrow(log: seq<Sending>, i: nat, j: nat)
    requires i <= j < |log|
    ensures PlaceIn(log, i) <= i && 1 <= StatesTo(log, i) <= i + 1
    ensures StatesTo(log, i) <= StatesTo(log, j)
    ensures StatesTo(log, i) == StatesTo(log, j) ==> PlaceIn(log, j) == PlaceIn(log, i) + (j - i)
    decreases j
  {
    if i < j {
      PlacesGrow(log, i, j - 1);
      PlacesGrow(log, j - 1, j - 1);
    } else if i > 0 {
      PlacesGrow(log, i - 1, i - 1);
    }
  }

  lemma SmallOrdinal(k: nat)
    requires k <= 0xFFFF_FFFF
    ensures Ordinal(k) == k
  {
    if k > 0 {
      RemainderIsUnique(k - 1, 0xFFFF_FFFF, 0, k - 1);
    }
  }

  // Without wraps a counter is the number itself.
  lemma PlainCounters(c: Control, log: seq<Sending>, i: nat)
    requires GoosePublisher.Stream(c, log) && Begins(log) && NoWrap(log) && i < |log|
    ensures log[i].pdu.header.sqNum == PlaceIn(log, i) && log[i].pdu.header.stNum == StatesTo(log, i)
  {
    hide GoosePublisher.Stream, Begins, Ordinal, PlaceIn, StatesTo;
    CountersOf(c, log, i);
    PlacesGrow(log, i, i);
    SmallOrdinal(PlaceIn(log, i));
    SmallOrdinal(StatesTo(log, i));
  }

  // The messages between two of one state are counted when there are any.
  lemma GapSays(s: Supervision.Stream, p: Pdu, lost: nat)
    requires p.header.stNum == s.last.header.stNum && p.header.sqNum == s.last.header.sqNum + 1 + lost
    requires p.header.sqNum < 0xFFFF_FFFF
    ensures var (t, accept, events) := FollowGoose(s, p);
            && accept && t.missed == s.missed + lost
            && (if lost == 0 then !Has(events, Gap) else Supervision.Event(Gap, lost) in events)
  {
    hide EntriesChanged;
    var events := FollowGoose(s, p).2;
    if lost > 0 {
      assert events[0] == Supervision.Event(Gap, lost);
    }
  }

  lemma StatesSay(s: Supervision.Stream, p: Pdu, states: nat)
    requires states > 0 && p.header.stNum == s.last.header.stNum + states
    ensures var (t, accept, events) := FollowGoose(s, p);
            accept && t.missed == s.missed + (states - 1) && events == [Supervision.Event(StateChange, states - 1)]
  {
    hide EntriesChanged;
  }

  // Two messages of a publisher, everything between them lost: within a state the gap is the
  // number of messages lost, and across states what is missed are the states never heard.
  lemma LossesAreCounted(c: Control, log: seq<Sending>, s: Supervision.Stream, i: nat, j: nat)
    requires GoosePublisher.Stream(c, log) && Begins(log) && NoWrap(log) && i < j < |log| && s.last == log[i].pdu
    ensures var (t, accept, events) := FollowGoose(s, log[j].pdu);
            var states := StatesTo(log, j) - StatesTo(log, i);
            && accept && states >= 0
            && (states == 0 ==> t.missed == s.missed + (j - i - 1)
                                && (if j == i + 1 then !Has(events, Gap) else Supervision.Event(Gap, j - i - 1) in events))
            && (states > 0 ==> t.missed == s.missed + (states - 1)
                               && events == [Supervision.Event(StateChange, states - 1)])
  {
    hide GoosePublisher.Stream, Begins, PlaceIn, StatesTo, FollowGoose, Has;
    PlainCounters(c, log, i);
    PlainCounters(c, log, j);
    PlacesGrow(log, i, j);
    PlacesGrow(log, j, j);
    if StatesTo(log, j) == StatesTo(log, i) {
      GapSays(s, log[j].pdu, j - i - 1);
    } else {
      StatesSay(s, log[j].pdu, StatesTo(log, j) - StatesTo(log, i));
    }
  }

  // --- late messages -------------------------------------------------------------------------

  // A message that was overtaken by the next one is counted as missed when that one comes, and
  // no longer when it comes itself; once more, it is a duplicate.
  lemma OvertakenIsMended(c: Control, s: Supervision.Stream, m: Sending, x: Sending, n: Sending, now: int)
    requires Ours(c, m) && Ours(c, x) && Ours(c, n) && Repeats(c, m, x) && Repeats(c, x, n)
    requires n.pdu.header.sqNum < 0xFFFF_FFFF && m.pdu.header.sqNum < x.pdu.header.sqNum < n.pdu.header.sqNum
    requires s.last == m.pdu && !s.timedOut && x.pdu.header.sqNum !in s.recent
    ensures var (s1, e1) := Feed(Some(s), n.pdu, now);
            var (s2, e2) := Feed(Some(s1), x.pdu, now);
            var (s3, e3) := Feed(Some(s2), x.pdu, now);
            && e1 == [Supervision.Event(Gap, 1)] && s1.missed == s.missed + 1
            && e2 == [Supervision.Event(OutOfOrder, 0)] && s2.missed == s.missed && s2.last == n.pdu
            && e3 == [Supervision.Event(Duplicate, 0)] && s3.missed == s.missed && s3.last == n.pdu
  {
    hide EntriesChanged;
    NothingChanged(m.pdu.allData);
    var s1 := Feed(Some(s), n.pdu, now).0;
    NothingChanged(n.pdu.allData);
    assert s1.recent == Pushed(s.recent, n.pdu.header.sqNum);
    PushedHolds(s.recent, n.pdu.header.sqNum);
    PushedHolds(s1.recent, x.pdu.header.sqNum);
  }

  // Nothing but a message of the same state that comes late undoes a loss, one each; what is
  // remembered begins again with each state; the states between two are missed, those after
  // 2^32 - 1 counted from 1.
  lemma LateSays(s: Supervision.Stream, p: Pdu, now: int)
    ensures var u := Feed(Some(s), p, now).0;
            var same := p.header.stNum == s.last.header.stNum;
            var late := same && !NewerMessage(s.last.header.sqNum, p.header.sqNum);
            && (late && p.header.sqNum in s.recent ==> u.missed == s.missed && u.recent == s.recent)
            && (late && p.header.sqNum !in s.recent ==> && u.missed == (if s.missed == 0 then 0 else s.missed - 1)
                                                        && u.recent == Pushed(s.recent, p.header.sqNum))
            && (same && !late ==> u.recent == Pushed(s.recent, p.header.sqNum))
            && (!same ==> u.recent == [p.header.sqNum])
            && (!late ==> u.missed >= s.missed)
            && (!same && NewerState(s.last.header.stNum, p.header.stNum) ==>
                  var states := if p.header.stNum > s.last.header.stNum then p.header.stNum - s.last.header.stNum
                                else p.header.stNum;
                  u.missed == s.missed + (states - 1)
                  && Supervision.Event(StateChange, states - 1) in FollowGoose(s.(timedOut := false), p).2)
  {
    hide EntriesChanged, ConfigEvents;
    assert [] + [p.header.sqNum] == [p.header.sqNum];
  }

  // What is remembered to tell the two apart: the 16 counters taken last.
  function LastTaken(taken: seq<nat>): seq<nat> {
    if |taken| <= 16 then taken else taken[|taken| - 16..]
  }

  lemma RemembersSixteen(taken: seq<nat>, n: nat)
    ensures Pushed(LastTaken(taken), n) == LastTaken(taken + [n])
  {
  }
}
