/**
 What each request to the control engine comes to (`server/control.py`): when it is granted,
 whom it leaves with the right to operate, and what runs. ControlRuns speaks of the history
 the steps write; here the steps are held to the requests themselves.
 */
module ControlRequests {
  import opened Octets
  import opened Control
  import opened ControlRuns

  // Client `c` may operate the object at `t`.
  predicate Holds(s: State, key: Key, c: Client, t: int) {
    key in s.selections && s.selections[key].client == c && t <= s.selections[key].until
  }

  // Nobody else may.
  ghost predicate FreeFor(s: State, key: Key, c: Client, t: int) {
    forall d :: Holds(s, key, d, t) ==> d == c
  }

  // From `now` on, the same clients may operate the same objects.
  ghost predicate SameHolders(s: State, u: State, now: int) {
    forall k, d, t: int :: t >= now ==> (Holds(u, k, d, t) <==> Holds(s, k, d, t))
  }

  // The same on every object but `key`.
  ghost predicate OnlyHolderOf(s: State, u: State, key: Key) {
    forall k, d, t: int :: k != key ==> (Holds(u, k, d, t) <==> Holds(s, k, d, t))
  }

  // No command is begun, ended or left to do.
  predicate SameCommands(s: State, u: State) {
    && u.executions == s.executions && u.pending == s.pending && u.connected == s.connected
    && u.opRcvd == s.opRcvd && u.opOk == s.opOk && u.next == s.next
  }

  // Of what is sent to the client only this: one LastApplError, or none. A selection that has
  // lapsed may be noted before.
  predicate Answers(s: State, u: State, c: Client, key: Key, cause: Option<int>) {
    var n := |s.log|;
    && n <= |u.log| && u.log[..n] == s.log
    && (forall j :: n <= j < |u.log| && u.log[j].Refused? ==> j == |u.log| - 1)
    && (if cause.Some? then n < |u.log| && u.log[|u.log| - 1] == Refused(c, key, cause.value)
        else forall j :: n <= j < |u.log| ==> !u.log[j].Refused?)
  }

  lemma Connecting(s: State, c: Client)
    ensures Step(s, Connects(c)) == s.(connected := s.connected + {c})
  {
  }

  // --- selecting ---------------------------------------------------------------------------

  predicate Selects(e: Event) {
    e.ReadsSbo? || e.WritesSbow?
  }

  predicate Granted(s: State, e: Event) {
    match e
    case ReadsSbo(c, key, m, now, timeout) => ReadSbo(s, c, key, m, now, timeout).1
    case WritesSbow(c, key, m, now, timeout, check) => SelectWithValue(s, c, key, m, now, timeout, check).1
    case WritesCancel(c, key, m, now) => Cancel(s, c, key, m, now).1
    case WritesOper(c, key, m, oper) => Operate(s, c, key, m, oper).1
    case _ => true
  }

  // SBO selects objects of normal security, SBOw those of enhanced security that are idle and
  // pass the application's check; neither while another client may operate.
  ghost predicate MaySelect(s: State, e: Event)
    requires Selects(e)
  {
    && FreeFor(s, e.key, e.client, e.now)
    && (e.ReadsSbo? ==> e.m.SboNormal?)
    && (e.WritesSbow? ==> e.m.SboEnhanced? && e.key !in s.executions && e.check.None?)
  }

  // Why SBOw refuses; a read of SBO gives no reason.
  ghost function WhyNot(s: State, e: Event): Option<int>
    requires Selects(e)
  {
    if e.ReadsSbo? || MaySelect(s, e) then None
    else if !e.m.SboEnhanced? then Some(NOT_SUPPORTED)
    else if !FreeFor(s, e.key, e.client, e.now) then Some(ALREADY_SELECTED)
    else if e.key in s.executions then Some(COMMAND_IN_EXECUTION)
    else e.check
  }

  lemma HolderIsOne(s: State, key: Key, c: Client, now: int)
    ensures FreeFor(s, key, c, now) <==>
              (key in s.selections && now <= s.selections[key].until ==> s.selections[key].client == c)
  {
    if key in s.selections && now <= s.selections[key].until {
      assert Holds(s, key, s.selections[key].client, now);
    }
  }

  // A selection is granted exactly when it may be, to its client, for the time of the object;
  // a refused one changes no right.
  lemma Selecting(s: State, e: Event)
    requires Selects(e)
    ensures Granted(s, e) <==> MaySelect(s, e)
    ensures SameCommands(s, Step(s, e))
    ensures Granted(s, e) ==>
              && (forall d, t: int :: Holds(Step(s, e), e.key, d, t) <==> d == e.client && t <= e.now + e.timeout)
                              && OnlyHolderOf(s, Step(s, e), e.key)
    ensures !Granted(s, e) ==> SameHolders(s, Step(s, e), e.now)
    ensures Answers(s, Step(s, e), e.client, e.key, WhyNot(s, e))
  {
    SelectingAnswers(s, e);
    HolderIsOne(s, e.key, e.client, e.now);
    hide Answers;
  }

  lemma SelectingAnswers(s: State, e: Event)
    requires Selects(e)
    ensures Answers(s, Step(s, e), e.client, e.key, WhyNot(s, e))
  {
    HolderIsOne(s, e.key, e.client, e.now);
  }

  // --- giving up ---------------------------------------------------------------------------

  // Cancel ends the right of the client that has it, and nobody else's.
  lemma Cancelling(s: State, c: Client, key: Key, m: CtlModel, now: int)
    ensures var e := WritesCancel(c, key, m, now);
            var u := Step(s, e);
            && (Granted(s, e) <==> !m.StatusOnly?) && SameCommands(s, u)
            && (!m.StatusOnly? ==> (forall t: int :: !Holds(u, key, c, t)) && OnlyHolderOf(s, u, key))
            && (!Holds(s, key, c, now) || m.StatusOnly? ==> SameHolders(s, u, now))
            && Answers(s, u, c, key, if m.StatusOnly? then Some(NOT_SUPPORTED) else None)
  {
  }

  // A client that goes can operate nothing; the others are left alone.
  lemma Leaving(s: State, c: Client)
    ensures var u := Step(s, Closes(c));
            && (forall k, d, t: int :: Holds(u, k, d, t) <==> d != c && Holds(s, k, d, t))
            && u.connected == s.connected - {c} && u.pending == s.pending && u.next == s.next
            && u.opRcvd == s.opRcvd && u.opOk == s.opOk && u.executions.Keys == s.executions.Keys
            && (forall k :: k in s.executions ==>
                  && u.executions[k].command == s.executions[k].command
                  && u.executions[k].client == if s.executions[k].client == Some(c) then None else s.executions[k].client)
  {
  }

  // --- operating ---------------------------------------------------------------------------

  // What an Oper must meet, in the order the engine asks.
  predicate MayOperate(s: State, c: Client, key: Key, m: CtlModel, o: Oper) {
    && !m.StatusOnly? && (IsSbo(m) ==> Holds(s, key, c, o.now)) && o.fits && key !in s.executions && o.check.None?
  }

  function Cause(s: State, c: Client, key: Key, m: CtlModel, o: Oper): int
    requires !MayOperate(s, c, key, m, o)
  {
    if m.StatusOnly? then NOT_SUPPORTED
    else if IsSbo(m) && !Holds(s, key, c, o.now) then NOT_SELECTED
    else if !o.fits then INCONSISTENT_PARAMETERS
    else if key in s.executions then COMMAND_IN_EXECUTION
    else o.check.value
  }

  // An Oper that may not be is refused with one LastApplError, and changes no right and no
  // command.
  lemma Refusing(s: State, c: Client, key: Key, m: CtlModel, o: Oper)
    requires !MayOperate(s, c, key, m, o)
    ensures var e := WritesOper(c, key, m, o);
            var u := Step(s, e);
            && !Granted(s, e) && SameCommands(s, u) && SameHolders(s, u, o.now)
            && Answers(s, u, c, key, Some(Cause(s, c, key, m, o)))
  {
    hide Answers, Refuse, Admit, Operate;
    AdmitRefuses(s, c, key, m, o);
    RefusedNext(s, Admit(s, c, key, m, o).0, c, key, Cause(s, c, key, m, o));
  }

  lemma AdmitRefuses(s: State, c: Client, key: Key, m: CtlModel, o: Oper)
    requires !MayOperate(s, c, key, m, o)
    ensures var (t, cause) := Admit(s, c, key, m, o);
            && cause == Some(Cause(s, c, key, m, o)) && SameCommands(s, t) && SameHolders(s, t, o.now)
            && (t.log == s.log || t.log == s.log + [Lapse(key, o.now)])
            && Operate(s, c, key, m, o) == (Refuse(t, c, key, cause.value), false)
  {
    hide Accept, Wait, RunNow;
  }

  lemma RefusedNext(s: State, t: State, c: Client, key: Key, cause: int)
    requires t.log == s.log || (|t.log| == |s.log| + 1 && t.log[..|s.log|] == s.log && !t.log[|s.log|].Refused?)
    ensures var u := Refuse(t, c, key, cause); u == t.(log := u.log) && Answers(s, u, c, key, Some(cause))
  {
  }

  // What the handler's answer comes to: with Test it is not asked.
  function Outcome(c: Command, answer: Answer): Answer {
    if c.test then Done else answer
  }

  // An Oper that may be is a new command of its client; the right to operate is used up. It is
  // left for later under enhanced security or with operTm in the future, and else runs now.
  lemma Operating(s: State, c: Client, key: Key, m: CtlModel, o: Oper)
    requires MayOperate(s, c, key, m, o)
    ensures var e := WritesOper(c, key, m, o);
            var u := Step(s, e);
            var command := Command(s.next, key, c, o.test, IsEnhanced(m), o.delayed);
            && (forall d, t: int :: !Holds(u, key, d, t)) && OnlyHolderOf(s, u, key) && u.next == s.next + 1
            && |s.log| < |u.log| && u.log[..|s.log|] == s.log
            && u.log[|s.log|] == Accepted(command, IsSbo(m), o.now)
            && (if IsEnhanced(m) || o.delayed then
                  Granted(s, e) && LeftFor(s, u, command, if IsEnhanced(m) then Reply(command) else Timer(command))
                else RanNow(s, u, command, Outcome(command, o.answer), Granted(s, e)))
  {
    hide Operate, RunNow, RanNow;
    AcceptedThen(s, c, key, m, o);
    var command := Command(s.next, key, c, o.test, IsEnhanced(m), o.delayed);
    var t := Accept(s, command, IsSbo(m), o.now);
    if !IsEnhanced(m) && !o.delayed {
      RunningNow(s, t, command, o.answer);
    }
  }

  lemma AcceptedThen(s: State, c: Client, key: Key, m: CtlModel, o: Oper)
    requires MayOperate(s, c, key, m, o)
    ensures var command := Command(s.next, key, c, o.test, IsEnhanced(m), o.delayed);
            var t := Accept(s, command, IsSbo(m), o.now);
            Operate(s, c, key, m, o)
            == if command.enhanced then (Wait(t, command, Reply(command)), true)
               else if command.delayed then (Wait(t, command, Timer(command)), true) else RunNow(t, command, o.answer)
  {
    hide Accept, Wait, RunNow;
  }

  // The command waits for its response or for operTm.
  predicate LeftFor(s: State, u: State, c: Command, p: Pending) {
    && u.pending == s.pending + [p] && u.executions == s.executions[c.key := Execution(Some(c.client), c)]
    && u.opRcvd == s.opRcvd + {c.key} && u.opOk == s.opOk
  }

  // The command ran before its response.
  predicate RanNow(s: State, u: State, c: Command, a: Answer, positive: bool) {
    && (positive <==> !a.Failed?) && u.pending == s.pending
    && u.executions == (if a.InExecution? then s.executions[c.key := Execution(Some(c.client), c)]
                        else s.executions - {c.key})
    && (c.key in u.opRcvd <==> a.InExecution?) && (c.key in u.opOk <==> a.InExecution?)
    && (!positive ==> |s.log| <= |u.log| && Refused(c.client, c.key, a.cause) in u.log[|s.log|..])
  }

  lemma RunningNow(s: State, t: State, c: Command, answer: Answer)
    requires c.key !in s.executions && t.executions == s.executions && t.pending == s.pending && t.connected == s.connected
    requires c.key in t.opRcvd && |t.log| == |s.log| + 1
    requires Outcome(c, answer).InExecution? ==> !c.test
    ensures var (u, positive) := RunNow(t, c, answer);
            RanNow(s, u, c, Outcome(c, answer), positive) && u.selections == t.selections && u.next == t.next
            && |t.log| < |u.log| && u.log[..|t.log|] == t.log
  {
    var (u, positive) := RunNow(t, c, answer);
    if !positive {
      assert u.log[|s.log|..][2] == u.log[|s.log| + 2];
    }
  }

  // --- rights over whole runs --------------------------------------------------------------

  // The events give the client no new right to operate the object.
  ghost predicate NoneGranted(s: State, es: seq<Event>, key: Key, c: Client) {
    es == [] || (&& NoneGranted(s, es[..|es| - 1], key, c)
                 && var e := es[|es| - 1];
                    !(Selects(e) && e.key == key && e.client == c && Granted(RunFrom(s, es[..|es| - 1]), e)))
  }

  function RunFrom(s: State, es: seq<Event>): State {
    if es == [] then s else Step(RunFrom(s, es[..|es| - 1]), es[|es| - 1])
  }

  // The object is selected by somebody else or nobody.
  predicate NotSelectedBy(s: State, key: Key, c: Client) {
    key in s.selections ==> s.selections[key].client != c
  }

  lemma RightIsGranted(s: State, e: Event, key: Key, c: Client)
    requires NotSelectedBy(s, key, c) && !(Selects(e) && e.key == key && e.client == c && Granted(s, e))
    ensures NotSelectedBy(Step(s, e), key, c)
  {
    if e.Runs? || e.Finishes? || e.Connects? {
      RunsSelectNothing(s, e);
      hide Step;
    } else if e.WritesOper? {
      OpersSelectNothing(s, e.client, e.key, e.m, e.oper);
      hide Operate;
    } else {
      hide Operate;
    }
  }

  lemma OpersSelectNothing(s: State, c: Client, key: Key, m: CtlModel, o: Oper)
    ensures forall k :: k in Operate(s, c, key, m, o).0.selections ==>
              k in s.selections && Operate(s, c, key, m, o).0.selections[k] == s.selections[k]
  {
  }

  // Commands that run or end select nothing.
  lemma RunsSelectNothing(s: State, e: Event)
    requires e.Runs? || e.Finishes? || e.Connects?
    ensures Step(s, e).selections == s.selections
  {
  }

  // A client without a selection stays without the right to operate until it is granted one:
  // whatever happens, each of its Opers of a select-before-operate object is refused.
  lemma {:induction false} NoRightUntilGranted(s: State, es: seq<Event>, key: Key, c: Client, m: CtlModel, o: Oper)
    requires NotSelectedBy(s, key, c) && NoneGranted(s, es, key, c) && IsSbo(m)
    ensures NotSelectedBy(RunFrom(s, es), key, c)
    ensures !Granted(RunFrom(s, es), WritesOper(c, key, m, o))
    ensures SameCommands(RunFrom(s, es), Step(RunFrom(s, es), WritesOper(c, key, m, o)))
  {
    if es != [] {
      hide Step, Granted;
      NoRightUntilGranted(s, es[..|es| - 1], key, c, m, o);
      RightIsGranted(RunFrom(s, es[..|es| - 1]), es[|es| - 1], key, c);
    }
    hide RunFrom, Step, Granted;
    Refusing(RunFrom(s, es), c, key, m, o);
  }

  // A Cancel of the client or its disconnection, an Oper of its own that is accepted, one that
  // comes when nobody may operate, and a selection by another client.
  ghost predicate EndsRight(s: State, e: Event, key: Key, c: Client) {
    match e
    case WritesCancel(d, k, m, _) => d == c && k == key && !m.StatusOnly?
    case Closes(d) => d == c
    case WritesOper(d, k, m, o) =>
      k == key && ((d == c && MayOperate(s, c, key, m, o)) || (IsSbo(m) && forall x :: !Holds(s, key, x, o.now)))
    case ReadsSbo(d, k, _, _, _) => d != c && k == key && Granted(s, e)
    case WritesSbow(d, k, _, _, _, _) => d != c && k == key && Granted(s, e)
    case _ => false
  }

  // Each of them ends the right of the client to operate, until it is granted again.
  lemma RightIsOver(s: State, e: Event, key: Key, c: Client, es: seq<Event>, m: CtlModel, o: Oper)
    requires EndsRight(s, e, key, c) && NoneGranted(Step(s, e), es, key, c) && IsSbo(m)
    ensures !Granted(RunFrom(Step(s, e), es), WritesOper(c, key, m, o))
  {
    EndsSelection(s, e, key, c);
    hide Step, EndsRight, RunFrom, Granted, NoneGranted;
    NoRightUntilGranted(Step(s, e), es, key, c, m, o);
  }

  lemma EndsSelection(s: State, e: Event, key: Key, c: Client)
    requires EndsRight(s, e, key, c)
    ensures NotSelectedBy(Step(s, e), key, c)
  {
    match e
    case WritesOper(d, k, m, o) =>
      if key in s.selections {
        assert o.now <= s.selections[key].until ==> Holds(s, key, s.selections[key].client, o.now);
      }
      if MayOperate(s, d, key, m, o) {
        Operating(s, d, key, m, o);
        StillSelected(s, Step(s, e), key, key);
        hide Step;
      }
    case _ =>
  }

  // --- counting ----------------------------------------------------------------------------

  ghost predicate IsGrant(s: State, e: Event, key: Key) {
    Selects(e) && e.key == key && Granted(s, e)
  }

  predicate IsOperate(s: State, e: Event, key: Key) {
    e.WritesOper? && e.key == key && IsSbo(e.m) && MayOperate(s, e.client, key, e.m, e.oper)
  }

  ghost function GrantsIn(es: seq<Event>, key: Key): nat {
    if es == [] then 0
    else GrantsIn(es[..|es| - 1], key) + (if IsGrant(Run(es[..|es| - 1]), es[|es| - 1], key) then 1 else 0)
  }

  ghost function OperatesIn(es: seq<Event>, key: Key): nat {
    if es == [] then 0
    else OperatesIn(es[..|es| - 1], key) + (if IsOperate(Run(es[..|es| - 1]), es[|es| - 1], key) then 1 else 0)
  }

  lemma SelectionIsSpent(s: State, e: Event, key: Key)
    ensures IsOperate(s, e, key) ==> key in s.selections && key !in Step(s, e).selections
    ensures key in Step(s, e).selections ==> key in s.selections || IsGrant(s, e, key)
  {
    if e.Runs? || e.Finishes? || e.Connects? {
      RunsSelectNothing(s, e);
      hide Step;
    } else if e.WritesOper? {
      if MayOperate(s, e.client, e.key, e.m, e.oper) {
        Operating(s, e.client, e.key, e.m, e.oper);
        StillSelected(s, Step(s, e), e.key, key);
      }
    } else {
      hide Operate;
    }
  }

  lemma StillSelected(s: State, u: State, used: Key, key: Key)
    requires (forall d, t: int :: !Holds(u, used, d, t)) && OnlyHolderOf(s, u, used)
    ensures used !in u.selections && (key in u.selections ==> key in s.selections)
  {
    if used in u.selections {
      assert Holds(u, used, u.selections[used].client, u.selections[used].until);
    }
    if key in u.selections {
      assert Holds(u, key, u.selections[key].client, u.selections[key].until);
    }
  }

  // In every run the Opers of an object that are accepted on a selection never outnumber the
  // selections of it that were granted.
  lemma {:induction false} OperatesNeedGrants(es: seq<Event>, key: Key)
    ensures OperatesIn(es, key) + (if key in Run(es).selections then 1 else 0) <= GrantsIn(es, key)
  {
    hide Step, IsGrant, IsOperate;
    if es != [] {
      OperatesNeedGrants(es[..|es| - 1], key);
      SelectionIsSpent(Run(es[..|es| - 1]), es[|es| - 1], key);
    }
  }

  // --- what runs ---------------------------------------------------------------------------

  // How a command ends: its flags are FALSE, the object is free, and under enhanced security
  // a client that is there gets the outcome.
  predicate EndsWith(s: State, u: State, c: Command, to: Option<Client>, a: Answer) {
    && u.executions == s.executions - {c.key} && u.opRcvd == s.opRcvd - {c.key} && u.opOk == s.opOk - {c.key}
    && u.log == s.log + [Ended(c, c.client in s.connected)]
                + (if c.enhanced && to.Some? && to.value in s.connected then [Terminated(to.value, c, a)] else [])
    && u.selections == s.selections && u.connected == s.connected && u.next == s.next
  }

  // An action that waited for a response sets the timer of a command with operTm; else, and
  // when the timer fires, the command runs: it ends with the outcome, or stays in execution
  // when the handler says so.
  lemma Running(s: State, i: nat, answer: Answer)
    requires Inv(s) && i < |s.pending|
    ensures var p := s.pending[i];
            var c := p.command;
            var u := Step(s, Runs(i, answer));
            var rest := s.pending[..i] + s.pending[i + 1..];
            if p.Reply? && c.delayed then u == s.(pending := rest + [Timer(c)])
            else if Outcome(c, answer).InExecution? then
              u == s.(pending := rest, executions := u.executions, opOk := s.opOk + {c.key})
              && u.executions == s.executions
            else EndsWith(s, u, c, Some(c.client), Outcome(c, answer)) && u.pending == rest
  {
    hide Legal, Complete, SelectionsAre, ExecutionsAre, Numbers, ExecutionInv, FlagsAre;
    var c := s.pending[i].command;
    assert c.key in s.executions && s.executions[c.key].command == c;
  }

  // `finish` ends the command in execution with the outcome it is given; its client is told if
  // it has not gone since.
  lemma Finishing(s: State, key: Key, a: Answer)
    requires Inv(s)
    ensures var u := Step(s, Finishes(key, a));
            if key !in s.executions then u == s && !Finish(s, key, a).1
            else
              var c := s.executions[key].command;
              Finish(s, key, a).1 && EndsWith(s, u, c, s.executions[key].client, a) && u.pending == s.pending
  {
    hide Legal, Complete, SelectionsAre, ExecutionsAre, Numbers, PendingInv, FlagsAre;
  }

  // What a termination carries: what the handler answered the command it is for, or what
  // `finish` was given.
  predicate SaysOutcome(s: State, e: Event, c: Command, a: Answer) {
    match e
    case Runs(i, answer) => i < |s.pending| && s.pending[i].command == c && a == Outcome(c, answer)
    case Finishes(key, answer) => key in s.executions && s.executions[key].command == c && a == answer
    case _ => false
  }

  // The history goes on, with no termination in what is new.
  predicate GoesOn(log: seq<Fact>, longer: seq<Fact>) {
    && |log| <= |longer| && longer[..|log|] == log && forall j :: |log| <= j < |longer| ==> !longer[j].Terminated?
  }

  lemma NewTermination(s: State, e: Event, j: nat)
    requires Inv(s) && |s.log| <= j < |Step(s, e).log| && Step(s, e).log[j].Terminated?
    ensures SaysOutcome(s, e, Step(s, e).log[j].command, Step(s, e).log[j].answer)
  {
    hide Inv;
    if e.Runs? {
      if e.i < |s.pending| {
        Running(s, e.i, e.answer);
        hide Step;
      }
    } else if e.Finishes? {
    } else {
      RequestsTerminateNothing(s, e);
      hide Step;
    }
  }

  lemma RequestsTerminateNothing(s: State, e: Event)
    requires !e.Runs? && !e.Finishes?
    ensures GoesOn(s.log, Step(s, e).log)
  {
    if e.WritesOper? {
      OperTerminatesNothing(s, e.client, e.key, e.m, e.oper);
      hide Operate, GoesOn;
    } else {
      hide Operate;
    }
  }

  lemma AdmitTerminatesNothing(s: State, c: Client, key: Key, m: CtlModel, o: Oper)
    ensures GoesOn(s.log, Admit(s, c, key, m, o).0.log)
  {
  }

  lemma RunNowTerminatesNothing(s: State, c: Command, answer: Answer)
    ensures GoesOn(s.log, RunNow(s, c, answer).0.log)
  {
  }

  lemma Twice(a: seq<Fact>, b: seq<Fact>, c: seq<Fact>)
    requires GoesOn(a, b) && GoesOn(b, c)
    ensures GoesOn(a, c)
  {
    assert c[..|a|] == c[..|b|][..|a|];
    forall j | |a| <= j < |c|
      ensures !c[j].Terminated?
    {
      if j < |b| {
        assert c[j] == c[..|b|][j];
      }
    }
  }

  lemma OperTerminatesNothing(s: State, c: Client, key: Key, m: CtlModel, o: Oper)
    ensures GoesOn(s.log, Operate(s, c, key, m, o).0.log)
  {
    hide Admit, RunNow;
    AdmitTerminatesNothing(s, c, key, m, o);
    var (t, cause) := Admit(s, c, key, m, o);
    if cause.None? {
      var command := CommandOf(t, c, key, m, o);
      RunNowTerminatesNothing(Accept(t, command, IsSbo(m), o.now), command, o.answer);
      Twice(t.log, Accept(t, command, IsSbo(m), o.now).log, Operate(s, c, key, m, o).0.log);
    }
    Twice(s.log, t.log, Operate(s, c, key, m, o).0.log);
  }

  lemma LogGrows(s: State, e: Event)
    ensures |s.log| <= |Step(s, e).log| && Step(s, e).log[..|s.log|] == s.log
  {
    if !e.Runs? && !e.Finishes? {
      RequestsTerminateNothing(s, e);
      hide Step;
    } else {
      hide Operate, ReadSbo, SelectWithValue, Cancel, Close;
    }
  }

  // In every run, each CommandTermination carries the outcome of its command.
  lemma {:induction false} TerminationSays(es: seq<Event>, j: nat) returns (n: nat)
    requires PossibleRun(es) && j < |Run(es).log| && Run(es).log[j].Terminated?
    ensures n < |es| && SaysOutcome(Run(es[..n]), es[n], Run(es).log[j].command, Run(es).log[j].answer)
  {
    var most := es[..|es| - 1];
    RunInv(most);
    LogGrows(Run(most), es[|es| - 1]);
    hide Inv, Step, SaysOutcome, Possible;
    if j < |Run(most).log| {
      n := TerminationSays(most, j);
      assert most[..n] == es[..n];
    } else {
      n := |es| - 1;
      NewTermination(Run(most), es[n], j);
    }
  }
}
