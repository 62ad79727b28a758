/**
 GOOSE publication (`goose_publisher.py`): the state of one control block, its wrapping
 counters and its retransmission schedule. Times are nanoseconds.
 */
module GoosePublisher {
  import opened Octets
  import opened Data
  import opened Goose

  const MS: nat := 1_000_000

  // What a GOOSE control block gives.
  datatype Control = Control(gocbRef: Bytes, datSet: Bytes, goId: Option<Bytes>, confRev: nat, simulation: bool,
                             ndsCom: bool, minMs: nat, maxMs: nat, talFactor: nat)

  // What its constructor accepts.
  predicate TypedControl(c: Control) {
    0 < c.minMs <= c.maxMs && c.talFactor >= 1
  }

  // A message that was sent, when, and the wait after it in milliseconds.
  datatype Sending = Sending(time: int, wait: nat, pdu: Pdu)

  // `interval` is the retransmission iterator's; `log` is history, every message sent.
  datatype State = State(values: seq<Value>, changed: bool, started: bool, stNum: nat, sqNum: nat, t: Utc,
                         interval: nat, due: int, log: seq<Sending>)

  function Fresh(c: Control, values: seq<Value>, t: Utc, now: int): State {
    State(values, false, false, 0, 0, t, c.minMs, now, [])
  }

  function NextSt(n: nat): nat {
    if n == U32_MAX then 1 else n + 1
  }

  function NextSq(n: nat): nat {
    if n == U32_MAX then 1 else n + 1
  }

  // `_new_state`, with the schedule starting again.
  function NewState(c: Control, s: State, t: Utc, now: int): State {
    s.(changed := false, stNum := NextSt(s.stNum), sqNum := 0, t := t, interval := c.minMs, due := now)
  }

  function Wait(c: Control, s: State): nat {
    if s.interval <= c.maxMs then s.interval else c.maxMs
  }

  // `frame`.
  function Message(c: Control, s: State, tal: nat): Pdu {
    Pdu(Header(c.gocbRef, tal, c.datSet, c.goId, s.t, s.stNum, s.sqNum, c.simulation, c.confRev, c.ndsCom, |s.values|),
        s.values)
  }

  // `_send_due`: the message now due, the next one's time and number.
  function SendDue(c: Control, s: State, now: int): State {
    var wait := Wait(c, s);
    s.(log := s.log + [Sending(now, wait, Message(c, s, c.talFactor * wait))], interval := 2 * s.interval,
       due := s.due + wait * MS, sqNum := NextSq(s.sqNum))
  }

  datatype Event =
    | Start
    | Stop
    | Publish(values: seq<Value>, sendNow: bool, now: int, t: Utc)
    | Turn(now: int, elapsed: nat, t: Utc)

  // `publish`: values of another number are refused.
  function Published(c: Control, s: State, values: seq<Value>, sendNow: bool, now: int, t: Utc): (State, bool) {
    if |values| != |s.values| then (s, false)
    else
      var u := s.(values := values);
      if sendNow && s.started then (SendDue(c, NewState(c, u, t, now), now), true) else (u.(changed := true), true)
  }

  // One turn of the thread's loop; the clock is read again before waiting, `elapsed` later.
  function Turned(c: Control, s: State, now: int, elapsed: nat, t: Utc): State {
    if !s.started then s
    else
      var u := if s.changed then NewState(c, s, t, now) else s;
      if u.due > now + elapsed then u else SendDue(c, u, now + elapsed)
  }

  function Step(c: Control, s: State, e: Event): State {
    match e
    case Start => if s.started then s else s.(started := true, changed := true)
    case Stop => s.(started := false)
    case Publish(values, sendNow, now, t) => Published(c, s, values, sendNow, now, t).0
    case Turn(now, elapsed, t) => Turned(c, s, now, elapsed, t)
  }

  function Run(c: Control, s: State, es: seq<Event>): State {
    if es == [] then s else Step(c, Run(c, s, es[..|es| - 1]), es[|es| - 1])
  }

  // --- what every run keeps ----------------------------------------------------------------

  // A message of the control block, with its time allowed to live.
  predicate Ours(c: Control, m: Sending) {
    var h := m.pdu.header;
    && h.gocbRef == c.gocbRef && h.datSet == c.datSet && h.goId == c.goId && h.confRev == c.confRev
    && h.simulation == c.simulation && h.ndsCom == c.ndsCom && h.entries == |m.pdu.allData|
    && 1 <= h.stNum <= U32_MAX && h.sqNum <= U32_MAX
    && h.tal == c.talFactor * m.wait && c.minMs <= m.wait <= c.maxMs
  }

  // A repetition: same state, same values, same time, the next sqNum, and twice the wait.
  predicate Repeats(c: Control, m: Sending, n: Sending) {
    var p, q := m.pdu, n.pdu;
    && q.header.stNum == p.header.stNum && q.header.sqNum == NextSq(p.header.sqNum)
    && q.header.t == p.header.t && q.allData == p.allData && n.wait == Min(2 * m.wait, c.maxMs)
  }

  // A new state, its waits beginning again.
  predicate Changes(c: Control, m: Sending, n: Sending) {
    n.pdu.header.stNum == NextSt(m.pdu.header.stNum) && n.pdu.header.sqNum == 0 && n.wait == c.minMs
  }

  predicate Follows(c: Control, m: Sending, n: Sending) {
    (Repeats(c, m, n) || Changes(c, m, n)) && |n.pdu.allData| == |m.pdu.allData|
  }

  // The messages of a publisher, one after the other.
  predicate Stream(c: Control, log: seq<Sending>) {
    && (forall i :: 0 <= i < |log| ==> Ours(c, log[i]))
    && (forall i {:trigger log[i]} :: 1 <= i < |log| ==> Follows(c, log[i - 1], log[i]))
  }

  // The first message of all is that of state 1.
  predicate Begins(log: seq<Sending>) {
    log != [] ==> log[0].pdu.header.stNum == 1 && log[0].pdu.header.sqNum == 0
  }

  // The publisher is about to send what follows the last message it sent.
  predicate AboutTo(c: Control, s: State, last: Sending) {
    var p := last.pdu;
    && s.stNum == p.header.stNum && s.sqNum == NextSq(p.header.sqNum) && s.t == p.header.t
    && |s.values| == |p.allData|
    && (s.started && !s.changed ==> s.values == p.allData && Wait(c, s) == Min(2 * last.wait, c.maxMs))
  }

  predicate Inv(c: Control, s: State) {
    && TypedControl(c) && Stream(c, s.log) && Begins(s.log) && s.stNum <= U32_MAX && s.sqNum <= U32_MAX
    && s.interval >= c.minMs
    && (if s.log == [] then s.stNum == 0 && s.sqNum == 0 && (s.started ==> s.changed)
        else AboutTo(c, s, s.log[|s.log| - 1]))
  }

  lemma FreshInv(c: Control, values: seq<Value>, t: Utc, now: int)
    requires TypedControl(c)
    ensures Inv(c, Fresh(c, values, t, now))
  {
  }

  // What a send appends, and leaves to send next.
  lemma SendInv(c: Control, s: State, u: State, now: int)
    requires Inv(c, s) && TypedControl(c)
    requires u == s.(values := u.values, changed := false, stNum := NextSt(s.stNum), sqNum := 0, t := u.t,
                     interval := c.minMs, due := u.due)
             || (u == s && s.log != [] && !s.changed)
    requires |u.values| == |s.values| && s.started
    ensures Inv(c, SendDue(c, u, now))
    ensures SendDue(c, u, now).log[..|s.log|] == s.log && |SendDue(c, u, now).log| == |s.log| + 1
  {
    hide Ours, Follows, Stream, Wait, Message, AboutTo;
    var wait := Wait(c, u);
    var n := Sending(now, wait, Message(c, u, c.talFactor * wait));
    SendsNext(c, s, u, now);
    StreamGrows(c, s.log, n);
    var r := SendDue(c, u, now);
    assert r.log == s.log + [n] && r.log[|s.log|] == n && r.log[..|s.log|] == s.log;
    assert s.log != [] ==> r.log[0] == s.log[0];
  }

  lemma StreamGrows(c: Control, log: seq<Sending>, n: Sending)
    requires Stream(c, log) && Ours(c, n) && (log != [] ==> Follows(c, log[|log| - 1], n))
    ensures Stream(c, log + [n])
  {
    hide Ours, Follows;
    var longer := log + [n];
    forall i | 1 <= i < |longer|
      ensures Follows(c, longer[i - 1], longer[i])
    {
      if i < |log| {
        assert longer[i - 1] == log[i - 1] && longer[i] == log[i];
      }
    }
  }

  // The message sent is the publisher's, follows the last one, and says what is sent next.
  lemma SendsNext(c: Control, s: State, u: State, now: int)
    requires Inv(c, s)
    requires u == s.(values := u.values, changed := false, stNum := NextSt(s.stNum), sqNum := 0, t := u.t,
                     interval := c.minMs, due := u.due)
             || (u == s && s.log != [] && !s.changed)
    requires |u.values| == |s.values| && s.started
    ensures var wait := Wait(c, u);
            var n := Sending(now, wait, Message(c, u, c.talFactor * wait));
            && Ours(c, n) && (s.log != [] ==> Follows(c, s.log[|s.log| - 1], n))
            && (s.log == [] ==> n.pdu.header.stNum == 1 && n.pdu.header.sqNum == 0)
            && AboutTo(c, SendDue(c, u, now), n)
  {
    if s.log != [] {
      LastIsOurs(c, s.log);
    }
    hide Stream;
  }

  lemma LastIsOurs(c: Control, log: seq<Sending>)
    requires Stream(c, log) && log != []
    ensures Ours(c, log[|log| - 1])
  {
    hide Ours, Follows;
  }

  lemma StepInv(c: Control, s: State, e: Event)
    requires Inv(c, s)
    ensures Inv(c, Step(c, s, e))
    ensures |s.log| <= |Step(c, s, e).log| && Step(c, s, e).log[..|s.log|] == s.log
  {
    hide SendDue, Stream;
    match e
    case Start =>
    case Stop =>
    case Publish(values, sendNow, now, t) =>
      if |values| == |s.values| && sendNow && s.started {
        SendInv(c, s, NewState(c, s.(values := values), t, now), now);
      }
    case Turn(now, elapsed, t) =>
      if s.started {
        var u := if s.changed then NewState(c, s, t, now) else s;
        if u.due <= now + elapsed {
          SendInv(c, s, u, now + elapsed);
        }
      }
  }

  // Over any run of publications, coalesced or sent at once, and repetitions, each message
  // is the next of its state, with that state's values, or the first of the next state.
  lemma {:induction false} RunInv(c: Control, s: State, es: seq<Event>)
    requires Inv(c, s)
    ensures Inv(c, Run(c, s, es))
  {
    hide Inv, Step;
    if es != [] {
      RunInv(c, s, es[..|es| - 1]);
      StepInv(c, Run(c, s, es[..|es| - 1]), es[|es| - 1]);
    }
  }

  // --- the schedule ------------------------------------------------------------------------

  // The thread never wakes after the message is due, and publications come in between.
  predicate Punctual(s: State, e: Event) {
    match e
    case Start => true
    case Stop => false
    case Publish(_, sendNow, now, _) => sendNow && s.started ==> InTime(s, now)
    case Turn(now, elapsed, _) => elapsed == 0 && (s.started ==> InTime(s, now))
  }

  predicate InTime(s: State, now: int) {
    s.log != [] ==> s.log[|s.log| - 1].time <= now <= s.due
  }

  ghost predicate PunctualRun(c: Control, s: State, es: seq<Event>) {
    es == [] || (PunctualRun(c, s, es[..|es| - 1]) && Punctual(Run(c, s, es[..|es| - 1]), es[|es| - 1]))
  }

  // Each message goes out within the wait announced by the one before.
  predicate OnTime(log: seq<Sending>) {
    forall i {:trigger log[i]} :: 1 <= i < |log| ==> log[i - 1].time <= log[i].time <= log[i - 1].time + log[i - 1].wait * MS
  }

  predicate DueIs(s: State) {
    OnTime(s.log) && (s.log != [] ==> s.started && s.due == s.log[|s.log| - 1].time + s.log[|s.log| - 1].wait * MS)
  }

  lemma SendOnTime(c: Control, s: State, u: State, now: int)
    requires DueIs(s) && InTime(s, now) && u.log == s.log && u.due == now && u.started
    ensures DueIs(SendDue(c, u, now))
  {
    hide Message, Wait;
    var r := SendDue(c, u, now);
    assert r.log[|s.log|].time == now;
    OnTimeGrows(s.log, r.log[|s.log|]);
    assert r.log == s.log + [r.log[|s.log|]];
  }

  lemma OnTimeGrows(log: seq<Sending>, n: Sending)
    requires OnTime(log)
    requires log != [] ==> log[|log| - 1].time <= n.time <= log[|log| - 1].time + log[|log| - 1].wait * MS
    ensures OnTime(log + [n])
  {
    var longer := log + [n];
    forall i | 1 <= i < |longer|
      ensures longer[i - 1].time <= longer[i].time <= longer[i - 1].time + longer[i - 1].wait * MS
    {
      if i < |log| {
        assert longer[i - 1] == log[i - 1] && longer[i] == log[i];
      }
    }
  }

  lemma {:induction false} RunOnTime(c: Control, s: State, es: seq<Event>)
    requires Inv(c, s) && DueIs(s) && PunctualRun(c, s, es)
    ensures DueIs(Run(c, s, es))
  {
    hide SendDue, DueIs, Inv, Step, Punctual;
    if es != [] {
      var before, e := Run(c, s, es[..|es| - 1]), es[|es| - 1];
      RunOnTime(c, s, es[..|es| - 1]);
      RunInv(c, s, es[..|es| - 1]);
      StepOnTime(c, before, e);
    }
  }

  lemma StepOnTime(c: Control, s: State, e: Event)
    requires Inv(c, s) && DueIs(s) && Punctual(s, e)
    ensures DueIs(Step(c, s, e))
  {
    hide SendDue, OnTime, Stream, AboutTo;
    match e
    case Start =>
    case Stop =>
    case Publish(values, sendNow, now, t) =>
      if |values| == |s.values| && sendNow && s.started {
        SendOnTime(c, s, NewState(c, s.(values := values), t, now), now);
      }
    case Turn(now, elapsed, t) =>
      if s.started {
        var u := if s.changed then NewState(c, s, t, now) else s;
        if u.due <= now {
          SendOnTime(c, s, u, now);
        }
      }
  }

  // --- the mutable publisher ---------------------------------------------------------------

  class Publisher {
    const control: Control
    var values: seq<Value>
    var changed: bool
    var started: bool
    var stNum: nat
    var sqNum: nat
    var t: Utc
    var interval: nat
    var due: int
    ghost var log: seq<Sending>

    ghost function Now(): State
      reads this
    {
      State(values, changed, started, stNum, sqNum, t, interval, due, log)
    }

    // What every run keeps.
    ghost predicate Valid()
      reads this
    {
      Inv(control, Now())
    }

    constructor (c: Control, initial: seq<Value>, at: Utc, now: int)
      requires TypedControl(c)
      ensures control == c && Now() == Fresh(c, initial, at, now) && Valid()
    {
      control, values, changed, started, stNum, sqNum := c, initial, false, false, 0, 0;
      t, interval, due, log := at, c.minMs, now, [];
      new;
      FreshInv(c, initial, at, now);
    }

    method OnStart()
      requires Valid()
      modifies this
      ensures Valid() && Now() == Step(control, old(Now()), Start)
    {
      StepInv(control, Now(), Start);
      if !started {
        started := true;
        changed := true;
      }
    }

    method OnStop()
      requires Valid()
      modifies this
      ensures Valid() && Now() == Step(control, old(Now()), Stop)
    {
      StepInv(control, Now(), Stop);
      started := false;
    }

    method Begin(at: Utc, now: int)
      modifies this
      ensures Now() == NewState(control, old(Now()), at, now)
    {
      changed := false;
      stNum := if stNum == U32_MAX then 1 else stNum + 1;
      sqNum := 0;
      t := at;
      interval := control.minMs;
      due := now;
    }

    // `_send_due`: the message that went out.
    method Send(now: int) returns (p: Pdu)
      modifies this
      ensures Now() == SendDue(control, old(Now()), now)
      ensures p == Message(control, old(Now()), control.talFactor * Wait(control, old(Now())))
    {
      var wait := if interval <= control.maxMs then interval else control.maxMs;
      interval := 2 * interval;
      p := Pdu(Header(control.gocbRef, control.talFactor * wait, control.datSet, control.goId, t, stNum, sqNum,
                      control.simulation, control.confRev, control.ndsCom, |values|), values);
      log := log + [Sending(now, wait, p)];
      due := due + wait * MS;
      sqNum := if sqNum == U32_MAX then 1 else sqNum + 1;
    }

    method OnPublish(v: seq<Value>, sendNow: bool, now: int, at: Utc) returns (ok: bool)
      requires Valid()
      modifies this
      ensures Valid() && (Now(), ok) == Published(control, old(Now()), v, sendNow, now, at)
    {
      hide Inv, SendDue, NewState;
      StepInv(control, Now(), Publish(v, sendNow, now, at));
      if |v| != |values| {
        return false;
      }
      values := v;
      if sendNow && started {
        Begin(at, now);
        var p := Send(now);
      } else {
        changed := true;
      }
      return true;
    }

    method OnTurn(now: int, elapsed: nat, at: Utc)
      requires Valid()
      modifies this
      ensures Valid() && Now() == Turned(control, old(Now()), now, elapsed, at)
    {
      hide Inv, SendDue, NewState;
      StepInv(control, Now(), Turn(now, elapsed, at));
      if !started {
        return;
      }
      if changed {
        Begin(at, now);
      }
      if due <= now + elapsed {
        var p := Send(now + elapsed);
      }
    }
  }
}
