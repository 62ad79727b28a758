/**
 What a publisher sends of what it is given (`goose_publisher.py`): when a publication goes
 out, and whose values each message carries, up to what a subscriber then knows.
 */
module GoosePublications {
  import opened Modulo
  import opened Octets
  import opened Data
  import opened Goose
  import opened GoosePublisher
  import opened GooseComposition

  // --- one event -----------------------------------------------------------------------------

  // The publisher sent exactly this more.
  predicate Sends(s: State, r: State, m: Sending) {
    r.log == s.log + [m]
  }

  // A first message of the state after the one before, with these values and this time.
  predicate IsFirst(s: State, m: Sending, time: int, values: seq<Value>, t: Utc) {
    var h := m.pdu.header;
    m.time == time && m.pdu.allData == values && h.t == t && h.sqNum == 0 && h.stNum == NextSt(s.stNum)
  }

  // Values of another number are refused and change nothing. Others are what the publisher has
  // from then on: sent at once as a new state, when asked and started, or left to the thread.
  lemma Publishing(c: Control, s: State, values: seq<Value>, sendNow: bool, now: int, t: Utc)
    ensures var r := Step(c, s, Publish(values, sendNow, now, t));
            && (Published(c, s, values, sendNow, now, t).1 <==> |values| == |s.values|)
            && (|values| != |s.values| ==> r == s)
            && (|values| == |s.values| ==> r.values == values && r.started == s.started)
            && (|values| == |s.values| && sendNow && s.started ==>
                  && !r.changed && |r.log| == |s.log| + 1 && Sends(s, r, r.log[|s.log|])
                  && IsFirst(s, r.log[|s.log|], now, values, t) && r.stNum == NextSt(s.stNum)
                  && r.due == now + r.log[|s.log|].wait * MS)
            && (|values| == |s.values| && !(sendNow && s.started) ==> r == s.(values := values, changed := true))
  {
  }

  // A turn of the thread sends what waits as a new state, else repeats the state when it is
  // due; a publisher that is stopped sends nothing. A late turn does not put off the next
  // message: the waits add up from the beginning of the state.
  lemma Turning(c: Control, s: State, now: int, elapsed: nat, t: Utc)
    ensures var r := Step(c, s, Turn(now, elapsed, t));
            && r.values == s.values && r.started == s.started
            && (!s.started ==> r == s)
            && (s.started ==> !r.changed)
            && (s.started && s.changed ==>
                  && |r.log| == |s.log| + 1 && Sends(s, r, r.log[|s.log|])
                  && IsFirst(s, r.log[|s.log|], now + elapsed, s.values, t) && r.stNum == NextSt(s.stNum)
                  && r.due == now + r.log[|s.log|].wait * MS)
            && (s.started && !s.changed && s.due > now + elapsed ==> r == s)
            && (s.started && !s.changed && s.due <= now + elapsed ==>
                  && |r.log| == |s.log| + 1 && Sends(s, r, r.log[|s.log|]) && r.log[|s.log|].time == now + elapsed
                  && r.log[|s.log|].pdu.allData == s.values && r.log[|s.log|].pdu.header.sqNum == s.sqNum
                  && r.stNum == s.stNum && r.due == s.due + r.log[|s.log|].wait * MS)
  {
  }

  // Starting a publisher makes it send its values as a new state at the next turn.
  lemma Starting(c: Control, s: State)
    ensures Step(c, s, Start) == if s.started then s else s.(started := true, changed := true)
    ensures Step(c, s, Stop) == s.(started := false)
  {
  }

  // --- whole runs ----------------------------------------------------------------------------

  // What the events say of a publisher: the values of the last publication, whether it runs,
  // whether they wait to be sent, and those of the state last begun.
  datatype Said = Said(values: seq<Value>, started: bool, waiting: bool, begun: Option<seq<Value>>)

  function Saying(values: seq<Value>, es: seq<Event>): (r: Said)
    ensures |r.values| == |values|
  {
    if es == [] then Said(values, false, false, None)
    else
      var s := Saying(values, es[..|es| - 1]);
      match es[|es| - 1]
      case Start => if s.started then s else s.(started := true, waiting := true)
      case Stop => s.(started := false)
      case Publish(v, sendNow, _, _) =>
        if |v| != |values| then s
        else if sendNow && s.started then Said(v, true, false, Some(v)) else s.(values := v, waiting := true)
      case Turn(_, _, _) => if s.started && s.waiting then s.(waiting := false, begun := Some(s.values)) else s
  }

  predicate Agrees(s: State, said: Said) {
    && s.values == said.values && s.started == said.started && s.changed == said.waiting
    && (s.log == [] <==> said.begun.None?)
    && (s.log != [] ==> s.log[|s.log| - 1].pdu.allData == said.begun.value)
    && (s.started && !s.changed ==> said.begun == Some(s.values))
  }

  lemma StaysAgreed(c: Control, s: State, e: Event, before: Said, after: Said, values: seq<Value>, es: seq<Event>)
    requires Inv(c, s) && Agrees(s, before) && es != [] && es[|es| - 1] == e
    requires before == Saying(values, es[..|es| - 1]) && after == Saying(values, es)
    ensures Agrees(Step(c, s, e), after)
  {
    match e
    case Publish(v, sendNow, now, t) => Publishing(c, s, v, sendNow, now, t);
    case Turn(now, elapsed, t) => Turning(c, s, now, elapsed, t);
    case Start =>
    case Stop =>
    hide Step, Inv;
    Starting(c, s);
  }

  // Over any run the last message carries the values of the last publication before its state
  // began, and a state begins as soon as the publisher runs and something waits.
  lemma {:induction false} RunSends(c: Control, values: seq<Value>, t: Utc, now: int, es: seq<Event>)
    requires TypedControl(c)
    ensures Agrees(Run(c, Fresh(c, values, t, now), es), Saying(values, es))
  {
    var s := Fresh(c, values, t, now);
    FreshInv(c, values, t, now);
    hide Step, Inv, Agrees;
    if es == [] {
      FreshAgrees(c, values, t, now);
    } else {
      var most := es[..|es| - 1];
      RunSends(c, values, t, now, most);
      RunInv(c, s, most);
      StaysAgreed(c, Run(c, s, most), es[|es| - 1], Saying(values, most), Saying(values, es), values, es);
    }
  }

  lemma FreshAgrees(c: Control, values: seq<Value>, t: Utc, now: int)
    ensures Agrees(Fresh(c, values, t, now), Saying(values, []))
  {
  }

  // The messages of a run are those of its beginning, and what came after.
  lemma {:induction false} LogOfPrefix(c: Control, s: State, es: seq<Event>, n: nat)
    requires n <= |es| && Inv(c, s)
    ensures |Run(c, s, es[..n]).log| <= |Run(c, s, es).log|
    ensures Run(c, s, es).log[..|Run(c, s, es[..n]).log|] == Run(c, s, es[..n]).log
    decreases |es|
  {
    hide Step, Inv;
    if n == |es| {
      assert es[..n] == es;
    } else {
      var most := es[..|es| - 1];
      LogOfPrefix(c, s, most, n);
      assert most[..n] == es[..n];
      RunInv(c, s, most);
      StepInv(c, Run(c, s, most), es[|es| - 1]);
    }
  }

  // Each message of a run, not the last one only: it was sent by some event, and carries what
  // the events up to that one began last.
  lemma {:induction false} EveryMessage(c: Control, values: seq<Value>, t: Utc, now: int, es: seq<Event>, j: nat)
    returns (n: nat)
    requires TypedControl(c) && j < |Run(c, Fresh(c, values, t, now), es).log|
    ensures n <= |es| && |Run(c, Fresh(c, values, t, now), es[..n]).log| == j + 1
    ensures Saying(values, es[..n]).begun == Some(Run(c, Fresh(c, values, t, now), es).log[j].pdu.allData)
  {
    var s := Fresh(c, values, t, now);
    FreshInv(c, values, t, now);
    hide Step, Inv, Fresh;
    if j + 1 == |Run(c, s, es).log| {
      n := |es|;
      assert es[..n] == es;
      RunSends(c, values, t, now, es);
    } else {
      assert es != [] by { NoMessageYet(c, values, t, now); }
      var most := es[..|es| - 1];
      RunInv(c, s, most);
      StepInv(c, Run(c, s, most), es[|es| - 1]);
      OneAtMost(c, Run(c, s, most), es[|es| - 1]);
      n := EveryMessage(c, values, t, now, most, j);
      assert most[..n] == es[..n];
    }
  }

  lemma NoMessageYet(c: Control, values: seq<Value>, t: Utc, now: int)
    ensures Run(c, Fresh(c, values, t, now), []).log == []
  {
  }

  lemma OneAtMost(c: Control, s: State, e: Event)
    ensures |Step(c, s, e).log| <= |s.log| + 1
  {
  }

  lemma InvStreams(c: Control, s: State)
    requires Inv(c, s)
    ensures Stream(c, s.log)
  {
    hide Stream;
  }

  lemma RunStreams(c: Control, values: seq<Value>, t: Utc, now: int, es: seq<Event>)
    requires TypedControl(c)
    ensures Stream(c, Run(c, Fresh(c, values, t, now), es).log)
  {
    FreshInv(c, values, t, now);
    hide Inv, Stream, Run, Fresh;
    RunInv(c, Fresh(c, values, t, now), es);
    InvStreams(c, Run(c, Fresh(c, values, t, now), es));
  }

  lemma Hearing(c: Control, log: seq<Sending>)
    requires Stream(c, log) && log != []
    ensures Heard(log, |log|).Some? && Heard(log, |log|).value.last == log[|log| - 1].pdu
  {
    hide Stream, Heard, Reported, Expected;
    CleanHearing(c, log, |log| - 1);
  }

  // A subscriber that hears every message knows the values of the state last begun: those last
  // published, unless they still wait to be sent.
  lemma SubscriberKnows(c: Control, values: seq<Value>, t: Utc, now: int, es: seq<Event>)
    requires TypedControl(c) && Run(c, Fresh(c, values, t, now), es).log != []
    ensures var log := Run(c, Fresh(c, values, t, now), es).log;
            var said := Saying(values, es);
            && Heard(log, |log|).Some? && said.begun.Some?
            && Heard(log, |log|).value.last.allData == said.begun.value
            && (said.started && !said.waiting ==> said.begun.value == said.values)
  {
    hide Run, Fresh, Saying, Heard, Stream;
    RunSends(c, values, t, now, es);
    RunStreams(c, values, t, now, es);
    Hearing(c, Run(c, Fresh(c, values, t, now), es).log);
  }

  // --- the counters --------------------------------------------------------------------------

  // 0, 1, 2 and so on up to 2^32 - 1, then from 1 again.
  function Ordinal(k: nat): nat {
    if k == 0 then 0 else (k - 1) % 0xFFFF_FFFF + 1
  }

  // How many messages of its state came before this one, and which state of all it is.
  function PlaceIn(log: seq<Sending>, i: nat): nat
    requires i < |log|
  {
    if i == 0 || log[i].pdu.header.sqNum == 0 then 0 else PlaceIn(log, i - 1) + 1
  }

  function StatesTo(log: seq<Sending>, i: nat): nat
    requires i < |log|
  {
    if i == 0 then 1 else StatesTo(log, i - 1) + (if log[i].pdu.header.sqNum == 0 then 1 else 0)
  }

  lemma OrdinalNext(k: nat)
    ensures Ordinal(k + 1) == if Ordinal(k) == 0xFFFF_FFFF then 1 else Ordinal(k) + 1
  {
    if k > 0 {
      NextCount(k - 1, 0xFFFF_FFFF);
    }
  }

  // What the counters of one message say of the next one's.
  lemma NextCounters(c: Control, log: seq<Sending>, i: nat)
    requires Stream(c, log) && 1 <= i < |log|
    ensures var p, q := log[i - 1].pdu.header, log[i].pdu.header;
            if q.sqNum == 0 then q.stNum == (if p.stNum == 0xFFFF_FFFF then 1 else p.stNum + 1)
            else q.stNum == p.stNum && q.sqNum == (if p.sqNum == 0xFFFF_FFFF then 1 else p.sqNum + 1)
  {
    assert Follows(c, log[i - 1], log[i]);
  }

  lemma {:induction false} CountersOf(c: Control, log: seq<Sending>, i: nat)
    requires Stream(c, log) && Begins(log) && i < |log|
    ensures log[i].pdu.header.sqNum == Ordinal(PlaceIn(log, i))
    ensures log[i].pdu.header.stNum == Ordinal(StatesTo(log, i))
  {
    hide Ordinal, Stream;
    FirstOrdinals();
    if i > 0 {
      CountersOf(c, log, i - 1);
      NextCounters(c, log, i);
      OrdinalNext(PlaceIn(log, i - 1));
      OrdinalNext(StatesTo(log, i - 1));
    }
  }

  lemma FirstOrdinals()
    ensures Ordinal(0) == 0 && Ordinal(1) == 1
  {
  }

  // In every run sqNum counts the messages of a state and stNum the states, both going on from
  // 1 after 2^32 - 1.
  lemma CountersOverRuns(c: Control, values: seq<Value>, t: Utc, now: int, es: seq<Event>, i: nat)
    requires TypedControl(c) && i < |Run(c, Fresh(c, values, t, now), es).log|
    ensures var log := Run(c, Fresh(c, values, t, now), es).log;
            && log[i].pdu.header.sqNum == Ordinal(PlaceIn(log, i))
            && log[i].pdu.header.stNum == Ordinal(StatesTo(log, i))
  {
    FreshInv(c, values, t, now);
    RunInv(c, Fresh(c, values, t, now), es);
    hide Run, Stream, AboutTo;
    CountersOf(c, Run(c, Fresh(c, values, t, now), es).log, i);
  }
}
