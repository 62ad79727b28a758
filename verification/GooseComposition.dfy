/**
 A publisher heard by a supervisor: what `supervision.py` says of the messages of
 `goose_publisher.py`, with every message delivered, and with some of them lost.
 */
module GooseComposition {
  import opened Octets
  import opened Data
  import opened Goose
  import opened GoosePublisher
  import opened Supervision

  // --- without loss ------------------------------------------------------------------------

  // The supervisor after the first `n` messages.
  function Heard(log: seq<Sending>, n: nat): Option<Supervision.Stream>
    requires n <= |log|
  {
    if n == 0 then None else Some(Feed(Heard(log, n - 1), log[n - 1].pdu, log[n - 1].time).0)
  }

  function Reported(log: seq<Sending>, n: nat): seq<Supervision.Event>
    requires n < |log|
  {
    Feed(Heard(log, n), log[n].pdu, log[n].time).1
  }

  // What the supervisor should say of message `n`: the stream is new, the state is new, or
  // nothing at all.
  function Expected(c: Control, log: seq<Sending>, n: nat): seq<Supervision.Event>
    requires n < |log|
  {
    if n == 0 then [Supervision.Event(NewStream, 0)] + EventIf(c.simulation, SimulationFlag) + EventIf(c.ndsCom, NdsComFlag)
    else if log[n].pdu.header.stNum != log[n - 1].pdu.header.stNum then [Supervision.Event(StateChange, 0)]
    else []
  }

  // The stream as it is after a message that became the reference.
  predicate IsAt(s: Supervision.Stream, m: Sending) {
    s.last == m.pdu && s.lastSeen == m.time && !s.timedOut
  }

  lemma NothingChanged(values: seq<Value>)
    ensures !EntriesChanged(values, values)
  {
  }

  // A message that follows the reference is accepted, with nothing missed.
  lemma FollowsIsClean(c: Control, s: Supervision.Stream, m: Sending, n: Sending)
    requires Ours(c, m) && Ours(c, n) && GoosePublisher.Follows(c, m, n) && s.last == m.pdu
    ensures var (t, accept, events) := FollowGoose(s, n.pdu);
            && accept && t.missed == s.missed && t == s.(recent := t.recent, missed := t.missed)
            && events == if n.pdu.header.stNum != m.pdu.header.stNum then [Supervision.Event(StateChange, 0)] else []
    ensures ConfigEvents(m.pdu.header, n.pdu.header) == []
  {
    hide EntriesChanged;
    NothingChanged(m.pdu.allData);
  }

  lemma {:induction false} CleanHearing(c: Control, log: seq<Sending>, n: nat)
    requires GoosePublisher.Stream(c, log) && n < |log|
    ensures Heard(log, n + 1).Some? && IsAt(Heard(log, n + 1).value, log[n]) && Heard(log, n + 1).value.missed == 0
    ensures Reported(log, n) == Expected(c, log, n)
  {
    hide FollowGoose, ConfigEvents, GoosePublisher.Follows;
    assert Ours(c, log[n]);
    if n > 0 {
      CleanHearing(c, log, n - 1);
      assert Ours(c, log[n - 1]);
      assert GoosePublisher.Follows(c, log[n - 1], log[n]);
      FollowsIsClean(c, Heard(log, n).value, log[n - 1], log[n]);
    }
  }

  // Any run of publications and repetitions, delivered in order, is reported as a new stream
  // with its flags, then state changes that miss nothing: not a gap, a duplicate, a restart
  // or a change of data, the wraps of stNum and sqNum included.
  lemma RunIsHeardClean(c: Control, values: seq<Value>, t: Utc, now: int, es: seq<GoosePublisher.Event>, n: nat)
    requires TypedControl(c)
    requires n < |Run(c, Fresh(c, values, t, now), es).log|
    ensures var log := Run(c, Fresh(c, values, t, now), es).log;
            && Reported(log, n) == Expected(c, log, n)
            && Heard(log, n + 1).Some? && Heard(log, n + 1).value.missed == 0
  {
    FreshInv(c, values, t, now);
    RunInv(c, Fresh(c, values, t, now), es);
    hide Run, Heard, Reported, Expected, GoosePublisher.Stream, AboutTo;
    CleanHearing(c, Run(c, Fresh(c, values, t, now), es).log, n);
  }

  // Messages of one state carry the same values and the same time.
  lemma StatesAreConstant(c: Control, values: seq<Value>, t: Utc, now: int, es: seq<GoosePublisher.Event>, n: nat)
    requires TypedControl(c)
    requires 1 <= n < |Run(c, Fresh(c, values, t, now), es).log|
    ensures var log := Run(c, Fresh(c, values, t, now), es).log;
            log[n].pdu.header.stNum == log[n - 1].pdu.header.stNum ==>
              && log[n].pdu.allData == log[n - 1].pdu.allData && log[n].pdu.header.t == log[n - 1].pdu.header.t
              && log[n].pdu.header.sqNum == NextSq(log[n - 1].pdu.header.sqNum)
  {
    FreshInv(c, values, t, now);
    RunInv(c, Fresh(c, values, t, now), es);
    var log := Run(c, Fresh(c, values, t, now), es).log;
    hide Run, AboutTo;
    assert Ours(c, log[n - 1]);
    assert GoosePublisher.Follows(c, log[n - 1], log[n]);
  }

  // --- with losses -------------------------------------------------------------------------

  // The supervisor after `n` messages of which some never reached it.
  function HeardSome(log: seq<Sending>, received: seq<bool>, n: nat): Option<Supervision.Stream>
    requires n <= |log| == |received|
  {
    if n == 0 then None
    else
      var before := HeardSome(log, received, n - 1);
      if received[n - 1] then Some(Feed(before, log[n - 1].pdu, log[n - 1].time).0) else before
  }

  // No two messages in a row are lost, nor the first one, nor one at the wrap of sqNum.
  predicate Bearable(log: seq<Sending>, received: seq<bool>) {
    && |received| == |log| && (log != [] ==> received[0])
    && (forall i {:trigger received[i]} :: 1 <= i < |log| && !received[i] ==>
          && received[i - 1]
          && log[i].pdu.header.sqNum < U32_MAX && log[i - 1].pdu.header.sqNum < U32_MAX)
  }

  // The message last heard among the first `n`, of which no two in a row are lost.
  function LastHeard(received: seq<bool>, n: nat): nat
    requires 1 <= n <= |received|
  {
    if received[n - 1] || n == 1 then n - 1 else n - 2
  }

  // A message that skips one: it is accepted all the same.
  lemma SkippedIsAccepted(c: Control, s: Supervision.Stream, m: Sending, x: Sending, n: Sending)
    requires Ours(c, m) && Ours(c, x) && Ours(c, n) && GoosePublisher.Follows(c, m, x) && GoosePublisher.Follows(c, x, n)
    requires m.pdu.header.sqNum < U32_MAX && x.pdu.header.sqNum < U32_MAX && s.last == m.pdu
    ensures FollowGoose(s, n.pdu).1 && FollowGoose(s, n.pdu).0.timedOut == s.timedOut
  {
    hide EntriesChanged;
  }

  lemma NextIsAccepted(c: Control, s: Supervision.Stream, m: Sending, n: Sending)
    requires Ours(c, m) && Ours(c, n) && GoosePublisher.Follows(c, m, n) && s.last == m.pdu
    ensures FollowGoose(s, n.pdu).1 && FollowGoose(s, n.pdu).0.timedOut == s.timedOut
  {
    hide EntriesChanged;
    FollowsIsClean(c, s, m, n);
  }

  lemma FedIsAt(s: Supervision.Stream, n: Sending)
    requires !s.timedOut && FollowGoose(s, n.pdu).1 && !FollowGoose(s, n.pdu).0.timedOut
    ensures IsAt(Feed(Some(s), n.pdu, n.time).0, n)
  {
    hide FollowGoose, ConfigEvents;
    assert s.(timedOut := false) == s;
  }

  // The reference is the message last heard.
  lemma {:induction false} HearingSome(c: Control, log: seq<Sending>, received: seq<bool>, n: nat)
    requires GoosePublisher.Stream(c, log) && Bearable(log, received) && 1 <= n <= |log|
    ensures LastHeard(received, n) < n
    ensures HeardSome(log, received, n).Some? && IsAt(HeardSome(log, received, n).value, log[LastHeard(received, n)])
  {
    hide FollowGoose, ConfigEvents, GoosePublisher.Follows;
    assert Ours(c, log[n - 1]);
    if n > 1 {
      HearingSome(c, log, received, n - 1);
      var s := HeardSome(log, received, n - 1).value;
      assert Ours(c, log[n - 2]) && GoosePublisher.Follows(c, log[n - 2], log[n - 1]);
      if received[n - 1] {
        if received[n - 2] {
          NextIsAccepted(c, s, log[n - 2], log[n - 1]);
        } else {
          assert Ours(c, log[n - 3]) && GoosePublisher.Follows(c, log[n - 3], log[n - 2]);
          SkippedIsAccepted(c, s, log[n - 3], log[n - 2], log[n - 1]);
        }
        FedIsAt(s, log[n - 1]);
      }
    }
  }

  // A timeAllowedtoLive that survives one lost message.
  predicate LongEnough(c: Control) {
    c.talFactor >= 3 || (c.talFactor == 2 && c.minMs == c.maxMs)
  }

  lemma TwoWaits(c: Control, m: Sending, n: Sending)
    requires TypedControl(c) && LongEnough(c) && Ours(c, m) && Ours(c, n) && GoosePublisher.Follows(c, m, n)
    ensures m.wait + n.wait <= m.pdu.header.tal && m.wait <= m.pdu.header.tal
  {
    assert n.wait <= 2 * m.wait;
    if c.talFactor >= 3 {
      assert c.talFactor * m.wait >= 3 * m.wait;
    }
  }

  lemma OneWait(c: Control, m: Sending)
    requires TypedControl(c) && Ours(c, m)
    ensures m.wait <= m.pdu.header.tal
  {
    assert c.talFactor * m.wait >= 1 * m.wait;
  }

  // From the sending of message `n - 1` until the next one is due, no check finds the stream
  // silent, although messages are lost.
  lemma NeverSilent(c: Control, log: seq<Sending>, received: seq<bool>, n: nat, now: int)
    requires TypedControl(c) && LongEnough(c)
    requires GoosePublisher.Stream(c, log) && OnTime(log) && Bearable(log, received) && 1 <= n <= |log|
    requires now <= log[n - 1].time + log[n - 1].wait * MS
    ensures HeardSome(log, received, n).Some?
    ensures Checked(HeardSome(log, received, n).value, now) == (HeardSome(log, received, n).value, [])
  {
    hide GoosePublisher.Follows, HeardSome;
    HearingSome(c, log, received, n);
    var k := LastHeard(received, n);
    assert Ours(c, log[k]);
    OneWait(c, log[k]);
    if k == n - 2 {
      assert Ours(c, log[n - 1]) && GoosePublisher.Follows(c, log[n - 2], log[n - 1]);
      TwoWaits(c, log[n - 2], log[n - 1]);
      assert log[n - 1].time <= log[n - 2].time + log[n - 2].wait * MS;
    }
  }

  // A publisher on schedule, whatever it publishes and when, is never found silent by a
  // supervisor that loses no two messages in a row.
  lemma RunIsNeverSilent(c: Control, values: seq<Value>, t: Utc, start: int, es: seq<GoosePublisher.Event>,
                         received: seq<bool>, n: nat, now: int)
    requires TypedControl(c) && LongEnough(c) && PunctualRun(c, Fresh(c, values, t, start), es)
    requires var log := Run(c, Fresh(c, values, t, start), es).log;
             Bearable(log, received) && 1 <= n <= |log| && now <= log[n - 1].time + log[n - 1].wait * MS
    ensures var log := Run(c, Fresh(c, values, t, start), es).log;
            && |log| == |received| && HeardSome(log, received, n).Some?
            && Checked(HeardSome(log, received, n).value, now) == (HeardSome(log, received, n).value, [])
  {
    FreshInv(c, values, t, start);
    RunInv(c, Fresh(c, values, t, start), es);
    RunOnTime(c, Fresh(c, values, t, start), es);
    hide Run, HeardSome, GoosePublisher.Stream, AboutTo;
    NeverSilent(c, Run(c, Fresh(c, values, t, start), es).log, received, n, now);
  }

  // A first state repeated twice, on time.
  function ThreeTurns(c: Control, t: Utc): seq<GoosePublisher.Event> {
    [Start, Turn(0, 0, t), Turn(c.minMs * MS, 0, t), Turn((c.minMs + Min(2 * c.minMs, c.maxMs)) * MS, 0, t)]
  }

  lemma ThreeMessages(c: Control, values: seq<Value>, t: Utc)
    requires TypedControl(c)
    ensures PunctualRun(c, Fresh(c, values, t, 0), ThreeTurns(c, t))
    ensures var log := Run(c, Fresh(c, values, t, 0), ThreeTurns(c, t)).log;
            && |log| == 3 && log[0].time == 0 && log[0].pdu.header.tal == c.talFactor * c.minMs
            && log[2].time == (c.minMs + Min(2 * c.minMs, c.maxMs)) * MS
            && (forall i :: 0 <= i < 3 ==> log[i].pdu.header.sqNum == i)
  {
    var s0 := Fresh(c, values, t, 0);
    var e1, e2, e3 := ThreeTurns(c, t)[1], ThreeTurns(c, t)[2], ThreeTurns(c, t)[3];
    RunSnoc(c, s0, [], Start);
    RunSnoc(c, s0, [Start], e1);
    RunSnoc(c, s0, [Start, e1], e2);
    RunSnoc(c, s0, [Start, e1, e2], e3);
    assert [] + [Start] == [Start] && [Start] + [e1] == [Start, e1] && [Start, e1] + [e2] == [Start, e1, e2];
    assert [Start, e1, e2] + [e3] == ThreeTurns(c, t);
  }

  // The bound is exact. With a shorter time to live, the first repetition of the first state
  // is lost, and the stream is found silent by the time the second one arrives.
  lemma ShorterIsTooShort(c: Control, values: seq<Value>, t: Utc)
    requires TypedControl(c) && !LongEnough(c)
    ensures PunctualRun(c, Fresh(c, values, t, 0), ThreeTurns(c, t))
    ensures var log := Run(c, Fresh(c, values, t, 0), ThreeTurns(c, t)).log;
            && |log| == 3 && Bearable(log, [true, false, true])
            && var s := HeardSome(log, [true, false, true], 2);
               s.Some? && Checked(s.value, log[2].time).1 == [Supervision.Event(TimedOut, 0)]
  {
    ThreeMessages(c, values, t);
    hide Run, ThreeTurns;
    var log := Run(c, Fresh(c, values, t, 0), ThreeTurns(c, t)).log;
    assert c.talFactor * c.minMs < c.minMs + Min(2 * c.minMs, c.maxMs);
    var received := [true, false, true];
    assert HeardSome(log, received, 0) == None;
    assert HeardSome(log, received, 1) == Some(Feed(None, log[0].pdu, 0).0);
    assert HeardSome(log, received, 2) == HeardSome(log, received, 1);
  }

  lemma RunSnoc(c: Control, s: State, es: seq<GoosePublisher.Event>, e: GoosePublisher.Event)
    ensures Run(c, s, es + [e]) == Step(c, Run(c, s, es), e)
    ensures PunctualRun(c, s, es + [e]) <==> PunctualRun(c, s, es) && Punctual(Run(c, s, es), e)
    ensures Run(c, s, []) == s && PunctualRun(c, s, [])
  {
    hide Step, Punctual;
    assert (es + [e])[..|es|] == es;
  }
}
