/**
 Supervision of GOOSE streams (`supervision.py`): what a subscriber makes of the messages of
 each gocbRef. Times are nanoseconds.
 */
module Supervision {
  import opened Octets
  import opened Data
  import opened Goose
  import opened GoosePublisher

  const REORDER_WINDOW := 16

  datatype Kind =
    | NewStream | StateChange | DataWithoutStateChange | Gap | Duplicate | OutOfOrder | Restart | TimedOut | Resumed
    | ConfigChanged | SimulationFlag | NdsComFlag | SynchChanged | Inconsistent

  // What a supervisor noticed, and how many messages or states never arrived.
  datatype Event = Event(kind: Kind, missed: nat)

  // What it knows of one stream; `recent` holds the counters last accepted.
  datatype Stream = Stream(lastSeen: int, last: Pdu, messages: nat, missed: nat, timedOut: bool, recent: seq<nat>)

  // A deque of at most 16 counters.
  function Pushed(recent: seq<nat>, n: nat): (r: seq<nat>)
    ensures |recent| <= REORDER_WINDOW ==> |r| <= REORDER_WINDOW
  {
    var longer := recent + [n];
    if |longer| > REORDER_WINDOW then longer[1..] else longer
  }

  lemma PushedHolds(recent: seq<nat>, n: nat)
    ensures n in Pushed(recent, n) && forall x :: x in Pushed(recent, n) ==> x == n || x in recent
    ensures |recent| < 16 ==> forall x :: x in recent ==> x in Pushed(recent, n)
  {
    var longer := recent + [n];
    assert longer[|longer| - 1] == n;
    if |longer| > REORDER_WINDOW {
      assert longer[1..][|longer| - 2] == n;
      forall x | x in longer[1..]
        ensures x == n || x in recent
      {
        var i :| 0 <= i < |longer[1..]| && longer[1..][i] == x;
        assert longer[i + 1] == x;
      }
    }
  }

  function Deadline(s: Stream): int {
    s.lastSeen + s.last.header.tal * MS
  }

  // --- classification ----------------------------------------------------------------------

  // How far stNum moved forward, with the wrap from 2^32 - 1 to 1; 0 if it did not.
  function StAhead(previous: nat, current: nat): nat {
    if current > previous then current - previous
    else if previous == U32_MAX && current >= 1 then current
    else 0
  }

  predicate SqNext(previous: nat, current: nat) {
    current == previous + 1 || (previous == U32_MAX && current in [0, 1])
  }

  // `_changed_entries`: the encoded octets decide.
  predicate EntriesChanged(was: seq<Value>, values: seq<Value>) {
    |was| != |values| || exists i :: 0 <= i < |was| && was[i] != values[i] && EncodeData(was[i]) != EncodeData(values[i])
  }

  predicate Consistent(p: Pdu) {
    p.header.entries == |p.allData|
  }

  function EventIf(condition: bool, kind: Kind): seq<Event> {
    if condition then [Event(kind, 0)] else []
  }

  // Some event is of this kind.
  predicate Has(events: seq<Event>, kind: Kind) {
    exists i :: 0 <= i < |events| && events[i].kind == kind
  }

  lemma HasConcat(a: seq<Event>, b: seq<Event>, kind: Kind)
    ensures Has(a + b, kind) <==> Has(a, kind) || Has(b, kind)
  {
    if Has(a, kind) {
      var i :| 0 <= i < |a| && a[i].kind == kind;
      assert (a + b)[i].kind == kind;
    }
    if Has(b, kind) {
      var i :| 0 <= i < |b| && b[i].kind == kind;
      assert (a + b)[|a| + i].kind == kind;
    }
  }

  lemma IfHas(condition: bool, kind: Kind, other: Kind)
    ensures Has(EventIf(condition, kind), other) <==> condition && other == kind
  {
    if condition {
      assert EventIf(condition, kind)[0].kind == kind;
    }
  }

  // `_compare_goose_config`.
  function ConfigEvents(prev: Header, h: Header): seq<Event> {
    EventIf(h.confRev != prev.confRev || h.datSet != prev.datSet || h.goId != prev.goId || h.entries != prev.entries,
            ConfigChanged)
    + EventIf(h.simulation != prev.simulation, SimulationFlag)
    + EventIf(h.ndsCom != prev.ndsCom, NdsComFlag)
  }

  // `_late`: a counter behind the reference, seen already or arriving late.
  function Late(s: Stream, n: nat): (Stream, seq<Event>) {
    if n in s.recent then (s, [Event(Duplicate, 0)])
    else (s.(recent := Pushed(s.recent, n), missed := if s.missed > 0 then s.missed - 1 else 0), [Event(OutOfOrder, 0)])
  }

  // `_follow_goose`: the stream, whether the message replaces the last one, and what it shows.
  function FollowGoose(s: Stream, p: Pdu): (Stream, bool, seq<Event>) {
    var prev, h := s.last.header, p.header;
    if h.stNum == prev.stNum then
      if h.sqNum == prev.sqNum || (h.sqNum < prev.sqNum && !SqNext(prev.sqNum, h.sqNum)) then
        var (late, events) := Late(s, h.sqNum);
        (late, false, events)
      else
        var missed: nat := if SqNext(prev.sqNum, h.sqNum) then 0 else h.sqNum - prev.sqNum - 1;
        (s.(missed := s.missed + missed), true,
         (if SqNext(prev.sqNum, h.sqNum) then [] else [Event(Gap, missed)])
         + EventIf(EntriesChanged(s.last.allData, p.allData), DataWithoutStateChange))
    else
      var ahead := StAhead(prev.stNum, h.stNum);
      if ahead == 0 then (s.(recent := []), true, [Event(Restart, 0)])
      else (s.(recent := [], missed := s.missed + (ahead - 1)), true, [Event(StateChange, ahead - 1)])
  }

  // --- feed and check ----------------------------------------------------------------------

  function Opening(p: Pdu): seq<Event> {
    [Event(NewStream, 0)] + EventIf(p.header.simulation, SimulationFlag) + EventIf(p.header.ndsCom, NdsComFlag)
  }

  // `feed`, for the stream of the message.
  function Feed(known: Option<Stream>, p: Pdu, now: int): (Stream, seq<Event>) {
    match known
    case None =>
      (Stream(now, p, 1, 0, false, [p.header.sqNum]), Opening(p) + EventIf(!Consistent(p), Inconsistent))
    case Some(s) =>
      var resumed := EventIf(s.timedOut, Resumed);
      var config := ConfigEvents(s.last.header, p.header);
      var (t, accept, events) := FollowGoose(s.(timedOut := false), p);
      var odd := EventIf(!Consistent(p) && Consistent(s.last), Inconsistent);
      var u := t.(messages := t.messages + 1, lastSeen := now);
      (if accept then u.(last := p, recent := Pushed(u.recent, p.header.sqNum)) else u, resumed + config + events + odd)
  }

  // `check`, for one stream: once per silence.
  function Checked(s: Stream, now: int): (Stream, seq<Event>) {
    if !s.timedOut && now > Deadline(s) then (s.(timedOut := true), [Event(TimedOut, 0)]) else (s, [])
  }

  // --- the mutable supervisor --------------------------------------------------------------

  /** What is known of one gocbRef, its fields updated in place. */
  class Known {
    var lastSeen: int
    var last: Pdu
    var messages: nat
    var missed: nat
    var timedOut: bool
    var recent: seq<nat>

    function Now(): Stream
      reads this
    {
      Stream(lastSeen, last, messages, missed, timedOut, recent)
    }

    constructor (p: Pdu, now: int)
      ensures Now() == Stream(now, p, 0, 0, false, [])
    {
      lastSeen, last, messages, missed, timedOut, recent := now, p, 0, 0, false, [];
    }

    method Push(n: nat)
      modifies `recent
      ensures recent == Pushed(old(recent), n)
    {
      recent := recent + [n];
      if |recent| > REORDER_WINDOW {
        recent := recent[1..];
      }
    }

    method TakeLate(n: nat) returns (events: seq<Event>)
      modifies this
      ensures (Now(), events) == Late(old(Now()), n)
    {
      if n in recent {
        return [Event(Duplicate, 0)];
      }
      Push(n);
      missed := if missed > 0 then missed - 1 else 0;
      return [Event(OutOfOrder, 0)];
    }

    method Follow(p: Pdu) returns (accept: bool, events: seq<Event>)
      modifies this
      ensures (Now(), accept, events) == FollowGoose(old(Now()), p)
    {
      hide Late, EntriesChanged;
      var prev, h := last.header, p.header;
      if h.stNum == prev.stNum {
        if h.sqNum == prev.sqNum || (h.sqNum < prev.sqNum && !SqNext(prev.sqNum, h.sqNum)) {
          events := TakeLate(h.sqNum);
          return false, events;
        }
        events := [];
        if !SqNext(prev.sqNum, h.sqNum) {
          var skipped := h.sqNum - prev.sqNum - 1;
          events := [Event(Gap, skipped)];
          missed := missed + skipped;
        }
        events := events + EventIf(EntriesChanged(last.allData, p.allData), DataWithoutStateChange);
        return true, events;
      }
      recent := [];
      var ahead := StAhead(prev.stNum, h.stNum);
      if ahead == 0 {
        return true, [Event(Restart, 0)];
      }
      missed := missed + (ahead - 1);
      return true, [Event(StateChange, ahead - 1)];
    }
  }

  /** `GooseSupervisor`, for the messages of one gocbRef. */
  class Supervisor {
    var known: Known?

    ghost function Now(): Option<Stream>
      reads this, known
    {
      if known == null then None else Some(known.Now())
    }

    constructor ()
      ensures Now() == None
    {
      known := null;
    }

    method OnMessage(p: Pdu, now: int) returns (events: seq<Event>)
      modifies this, known
      ensures fresh(known) || known == old(known)
      ensures Now().Some? && (Now().value, events) == Feed(old(Now()), p, now)
    {
      hide FollowGoose, ConfigEvents;
      if known == null {
        known := new Known(p, now);
        events := Opening(p) + EventIf(!Consistent(p), Inconsistent);
        known.messages := 1;
        known.Push(p.header.sqNum);
        assert [] + [p.header.sqNum] == [p.header.sqNum];
        return;
      }
      var s := known;
      var prev := s.last;
      events := EventIf(s.timedOut, Resumed);
      s.timedOut := false;
      events := events + ConfigEvents(prev.header, p.header);
      var accept, followed := s.Follow(p);
      events := events + followed + EventIf(!Consistent(p) && Consistent(prev), Inconsistent);
      s.messages := s.messages + 1;
      s.lastSeen := now;
      if accept {
        s.last := p;
        s.Push(p.header.sqNum);
      }
    }

    method OnCheck(now: int) returns (events: seq<Event>)
      modifies known
      ensures old(Now()).None? ==> Now().None? && events == []
      ensures old(Now()).Some? ==> Now().Some? && (Now().value, events) == Checked(old(Now()).value, now)
    {
      if known != null && !known.timedOut && now > known.lastSeen + known.last.header.tal * MS {
        known.timedOut := true;
        return [Event(TimedOut, 0)];
      }
      return [];
    }
  }
}
