/**
 Whole runs of the control engine: select before operate, one command at a time on each
 object, and one CommandTermination for each command of enhanced security.
 */
module ControlRuns {
  import opened Octets
  import opened Control

  // --- reading the history -----------------------------------------------------------------

  // Who holds a selection, and until when.
  function Holder(log: seq<Fact>, key: Key): Option<Selection> {
    if log == [] then None
    else
      var before := Holder(log[..|log| - 1], key);
      match log[|log| - 1]
      case Grant(k, c, until) => if k == key then Some(Selection(c, until)) else before
      case Lapse(k, _) => if k == key then None else before
      case Cancelled(k, _) => if k == key then None else before
      case Accepted(c, _, _) => if c.key == key then None else before
      case Gone(c) => if before.Some? && before.value.client == c then None else before
      case _ => before
  }

  // The command accepted on an object that has not ended.
  function InProgress(log: seq<Fact>, key: Key): Option<Command> {
    if log == [] then None
    else
      var before := InProgress(log[..|log| - 1], key);
      match log[|log| - 1]
      case Accepted(c, _, _) => if c.key == key then Some(c) else before
      case Ended(c, _) => if c.key == key then None else before
      case _ => before
  }

  predicate AcceptedIn(log: seq<Fact>, c: Command) {
    exists i :: 0 <= i < |log| && log[i].Accepted? && log[i].command == c
  }

  // What may happen next: a selection is granted to nobody but its holder while it lasts, an
  // Oper of a select-before-operate model comes from the holder in time, a command is accepted
  // once and alone on its object, ends once, and is terminated at its end and after its
  // positive response.
  predicate LegalNext(log: seq<Fact>, f: Fact) {
    match f
    case Grant(k, c, _) => Holder(log, k).Some? ==> Holder(log, k).value.client == c
    case Lapse(k, now) => Holder(log, k).Some? && now > Holder(log, k).value.until
    case Cancelled(k, c) => Holder(log, k).Some? && Holder(log, k).value.client == c
    case Gone(_) => true
    case Accepted(c, sbo, now) =>
      && InProgress(log, c.key).None? && !AcceptedIn(log, c)
      && (sbo ==> Holder(log, c.key).Some? && Holder(log, c.key).value.client == c.client
                  && now <= Holder(log, c.key).value.until)
    case Refused(_, _, _) => true
    case Responded(c, _) => AcceptedIn(log, c)
    case Ended(c, _) => InProgress(log, c.key) == Some(c)
    case Terminated(to, c, a) => && c.enhanced && to == c.client && !a.InExecution?
                                 && log != [] && log[|log| - 1] == Ended(c, true) && Responded(c, true) in log
  }

  predicate Legal(log: seq<Fact>) {
    log == [] || (Legal(log[..|log| - 1]) && LegalNext(log[..|log| - 1], log[|log| - 1]))
  }

  // No command of enhanced security ends with its client there and goes unterminated.
  predicate Complete(log: seq<Fact>) {
    forall i :: 0 <= i < |log| && log[i].Ended? && log[i].connected && log[i].command.enhanced ==>
      i + 1 < |log| && log[i + 1].Terminated? && log[i + 1].command == log[i].command
  }

  // --- what every step keeps ---------------------------------------------------------------

  ghost predicate SelectionsAre(s: State) {
    forall k :: Holder(s.log, k) == if k in s.selections then Some(s.selections[k]) else None
  }

  ghost predicate ExecutionsAre(s: State) {
    forall k :: InProgress(s.log, k) == if k in s.executions then Some(s.executions[k].command) else None
  }

  predicate ExecutionInv(s: State, k: Key)
    requires k in s.executions
  {
    var e := s.executions[k];
    && e.command.key == k && e.command.id < s.next
    && (e.client == if e.command.client in s.connected then Some(e.command.client) else None)
    && (e.command.enhanced ==> Responded(e.command, true) in s.log)
    && (e.command.client in s.connected || Gone(e.command.client) in s.log)
  }

  predicate PendingInv(s: State) {
    && (forall i :: 0 <= i < |s.pending| ==>
          var c := s.pending[i].command;
          && c.key in s.executions && s.executions[c.key].command == c
          && (s.pending[i].Reply? ==> c.enhanced) && (s.pending[i].Timer? ==> c.delayed))
    && (forall i, j :: 0 <= i < j < |s.pending| ==> s.pending[i].command.key != s.pending[j].command.key)
  }

  // opRcvd is TRUE from an accepted Oper to the end of the command, opOk from the order given.
  ghost predicate FlagsAre(s: State) {
    && s.opRcvd == s.executions.Keys
    && (forall k :: k in s.opOk <==> k in s.executions && HandlerAnswered(s, k))
  }

  predicate Numbers(s: State) {
    forall i :: 0 <= i < |s.log| && s.log[i].Accepted? ==> s.log[i].command.id < s.next
  }

  ghost predicate Inv(s: State) {
    && Legal(s.log) && Complete(s.log) && SelectionsAre(s) && ExecutionsAre(s) && Numbers(s)
    && (forall k :: k in s.executions ==> ExecutionInv(s, k))
    && (forall k :: k in s.selections ==> s.selections[k].client in s.connected)
    && PendingInv(s) && FlagsAre(s)
  }

  lemma FreshInv()
    ensures Inv(Fresh())
  {
  }

  // A fact that concerns no command.
  predicate Quiet(f: Fact) {
    !f.Accepted? && !f.Ended? && !f.Responded? && !f.Terminated?
  }

  lemma Snoc(log: seq<Fact>, f: Fact)
    ensures (log + [f])[..|log|] == log
    ensures Legal(log + [f]) <==> Legal(log) && LegalNext(log, f)
    ensures Quiet(f) ==> forall k :: InProgress(log + [f], k) == InProgress(log, k)
    ensures Complete(log) && !f.Ended? ==> Complete(log + [f])
  {
    hide Holder, LegalNext;
    assert (log + [f])[..|log|] == log;
    if Complete(log) && !f.Ended? {
      assert forall i :: 0 <= i < |log| ==> (log + [f])[i] == log[i];
    }
  }

  // A fact about selections, and the selections it leaves.
  lemma SelectionStep(s: State, t: State, f: Fact)
    requires Inv(s) && Quiet(f) && LegalNext(s.log, f)
    requires t == s.(selections := t.selections, log := s.log + [f])
    requires SelectionsAre(t) && forall k :: k in t.selections ==> t.selections[k].client in t.connected
    ensures Inv(t)
  {
    hide Holder, LegalNext, Legal, Complete, InProgress;
    Snoc(s.log, f);
    forall k | k in t.executions
      ensures ExecutionInv(t, k)
    {
      assert ExecutionInv(s, k);
    }
    assert forall k :: HandlerAnswered(t, k) == HandlerAnswered(s, k);
  }

  lemma CurrentInv(s: State, key: Key, now: int)
    requires Inv(s)
    ensures var t := Current(s, key, now);
            && Inv(t) && t == s.(selections := t.selections, log := t.log)
            && (key in t.selections ==> key in s.selections && now <= t.selections[key].until)
  {
    var t := Current(s, key, now);
    if t != s {
      hide LegalNext, Legal, Complete, InProgress, PendingInv, FlagsAre, ExecutionInv;
      Snoc(s.log, Lapse(key, now));
      assert LegalNext(s.log, Lapse(key, now)) by { LapseIsLegal(s, key, now); }
      SelectionStep(s, t, Lapse(key, now));
    }
  }

  lemma LapseIsLegal(s: State, key: Key, now: int)
    requires SelectionsAre(s) && key in s.selections && now > s.selections[key].until
    ensures LegalNext(s.log, Lapse(key, now))
  {
    hide Holder;
  }

  lemma GrantIsLegal(s: State, key: Key, c: Client, until: int)
    requires SelectionsAre(s) && !HeldByOther(s, key, c)
    ensures LegalNext(s.log, Grant(key, c, until)) && SelectionsAre(Selected(s, key, c, until))
  {
    var t := Selected(s, key, c, until);
    assert t.log[..|s.log|] == s.log;
  }

  lemma SelectedInv(s: State, key: Key, c: Client, until: int)
    requires Inv(s) && !HeldByOther(s, key, c) && c in s.connected
    ensures Inv(Selected(s, key, c, until))
  {
    GrantIsLegal(s, key, c, until);
    hide LegalNext, Legal, Complete, InProgress, PendingInv, FlagsAre, ExecutionInv, Holder, SelectionsAre;
    SelectionStep(s, Selected(s, key, c, until), Grant(key, c, until));
  }

  lemma RefusedInv(s: State, c: Client, key: Key, cause: int)
    requires Inv(s)
    ensures Inv(Refuse(s, c, key, cause))
  {
    var f := Refused(c, key, cause);
    hide Legal, Complete, InProgress, PendingInv, FlagsAre, ExecutionInv;
    Snoc(s.log, f);
    SelectionStep(s, Refuse(s, c, key, cause), f);
  }

  lemma ReadSboInv(s: State, c: Client, key: Key, m: CtlModel, now: int, timeout: nat)
    requires Inv(s) && c in s.connected
    ensures Inv(ReadSbo(s, c, key, m, now, timeout).0)
  {
    hide Inv, Current, Selected;
    if m.SboNormal? {
      CurrentInv(s, key, now);
      var t := Current(s, key, now);
      if !HeldByOther(t, key, c) {
        SelectedInv(t, key, c, now + timeout);
      }
    }
  }

  lemma SelectWithValueInv(s: State, c: Client, key: Key, m: CtlModel, now: int, timeout: nat, check: Option<int>)
    requires Inv(s) && c in s.connected
    ensures Inv(SelectWithValue(s, c, key, m, now, timeout, check).0)
  {
    hide Inv, Current, Selected, Refuse;
    if !m.SboEnhanced? {
      RefusedInv(s, c, key, NOT_SUPPORTED);
    } else {
      CurrentInv(s, key, now);
      var t := Current(s, key, now);
      if HeldByOther(t, key, c) {
        RefusedInv(t, c, key, ALREADY_SELECTED);
      } else if Check(t, key, check).Some? {
        RefusedInv(t, c, key, Check(t, key, check).value);
      } else {
        SelectedInv(t, key, c, now + timeout);
      }
    }
  }

  lemma CancelledInv(s: State, key: Key)
    requires Inv(s) && key in s.selections
    ensures Inv(Noted(s.(selections := s.selections - {key}), Cancelled(key, s.selections[key].client)))
  {
    var f := Cancelled(key, s.selections[key].client);
    assert LegalNext(s.log, f) by { hide Holder; }
    hide LegalNext, Legal, Complete, InProgress, PendingInv, FlagsAre, ExecutionInv;
    Snoc(s.log, f);
    SelectionStep(s, Noted(s.(selections := s.selections - {key}), f), f);
  }

  lemma CancelInv(s: State, c: Client, key: Key, m: CtlModel, now: int)
    requires Inv(s)
    ensures Inv(Cancel(s, c, key, m, now).0)
  {
    hide Inv, Current, Refuse;
    if m.StatusOnly? {
      RefusedInv(s, c, key, NOT_SUPPORTED);
    } else {
      CurrentInv(s, key, now);
      var t := Current(s, key, now);
      if key in t.selections && t.selections[key].client == c {
        CancelledInv(t, key);
      }
    }
  }

  // --- commands ----------------------------------------------------------------------------

  // Everything but what concerns one command in execution with nothing left to do.
  ghost predicate InvBut(s: State, c: Command, given: bool) {
    && Legal(s.log) && Complete(s.log) && SelectionsAre(s) && ExecutionsAre(s) && Numbers(s)
    && (forall k :: k in s.executions && k != c.key ==> ExecutionInv(s, k))
    && (forall k :: k in s.selections ==> s.selections[k].client in s.connected)
    && PendingInv(s) && s.opRcvd == s.executions.Keys
    && (forall k :: k != c.key ==> (k in s.opOk <==> k in s.executions && HandlerAnswered(s, k)))
    && (c.key in s.opOk <==> given)
    && c.key in s.executions && s.executions[c.key].command == c && c.id < s.next
    && s.executions[c.key].client == (if c.client in s.connected then Some(c.client) else None)
    && (c.client in s.connected || Gone(c.client) in s.log)
    && HandlerAnswered(s, c.key)
  }

  // The command is taken: accepted and in execution.
  function Took(s: State, c: Command, sbo: bool, now: int): State {
    var t := Accept(s, c, sbo, now);
    t.(executions := t.executions[c.key := Execution(Some(c.client), c)])
  }

  lemma {:induction false} OldNumbers(log: seq<Fact>, c: Command, next: nat)
    requires forall i :: 0 <= i < |log| && log[i].Accepted? ==> log[i].command.id < next
    requires c.id >= next
    ensures !AcceptedIn(log, c)
  {
  }

  lemma AcceptedFacts(s: State, c: Command, sbo: bool, now: int)
    requires Inv(s) && c.key !in s.executions && c.id == s.next
    requires sbo ==> c.key in s.selections && s.selections[c.key].client == c.client && now <= s.selections[c.key].until
    ensures LegalNext(s.log, Accepted(c, sbo, now))
    ensures var t := Took(s, c, sbo, now); SelectionsAre(t) && ExecutionsAre(t) && Numbers(t)
  {
    hide Legal, Complete, PendingInv, FlagsAre, ExecutionInv;
    OldNumbers(s.log, c, s.next);
    var t := Took(s, c, sbo, now);
    assert t.log[..|s.log|] == s.log;
    assert InProgress(s.log, c.key).None?;
    assert sbo ==> Holder(s.log, c.key) == Some(s.selections[c.key]);
  }

  // What is pending concerns the commands in execution before.
  lemma TookPending(s: State, t: State, c: Command)
    requires PendingInv(s) && c.key !in s.executions && t.pending == s.pending
    requires t.executions == s.executions[c.key := Execution(Some(c.client), c)]
    ensures PendingInv(t) && HandlerAnswered(t, c.key)
    ensures forall k :: k != c.key ==> HandlerAnswered(t, k) == HandlerAnswered(s, k)
  {
    forall i | 0 <= i < |t.pending|
      ensures t.pending[i].command.key != c.key
    {
      assert s.pending[i].command.key in s.executions;
    }
  }

  lemma TookExecutions(s: State, t: State, c: Command)
    requires (forall k :: k in s.executions ==> ExecutionInv(s, k)) && t.connected == s.connected && t.next > s.next
    requires t.executions == s.executions[c.key := Execution(Some(c.client), c)] && |s.log| <= |t.log|
    requires t.log[..|s.log|] == s.log
    ensures forall k :: k in t.executions && k != c.key ==> ExecutionInv(t, k)
  {
    forall k | k in t.executions && k != c.key
      ensures ExecutionInv(t, k)
    {
      assert ExecutionInv(s, k);
      forall f | f in s.log
        ensures f in t.log
      {
        var i :| 0 <= i < |s.log| && s.log[i] == f;
        assert t.log[i] == f;
      }
    }
  }

  lemma TookFlags(s: State, t: State, c: Command)
    requires FlagsAre(s) && c.key !in s.executions && t.opOk == s.opOk && t.opRcvd == s.opRcvd + {c.key}
    requires t.executions == s.executions[c.key := Execution(Some(c.client), c)]
    requires forall k :: k != c.key ==> HandlerAnswered(t, k) == HandlerAnswered(s, k)
    ensures t.opRcvd == t.executions.Keys && c.key !in t.opOk
    ensures forall k :: k != c.key ==> (k in t.opOk <==> k in t.executions && HandlerAnswered(t, k))
  {
    hide HandlerAnswered;
  }

  lemma TookInv(s: State, c: Command, sbo: bool, now: int)
    requires Inv(s) && c.key !in s.executions && c.id == s.next && c.client in s.connected
    requires sbo ==> c.key in s.selections && s.selections[c.key].client == c.client && now <= s.selections[c.key].until
    ensures InvBut(Took(s, c, sbo, now), c, false) && AcceptedIn(Took(s, c, sbo, now).log, c)
  {
    hide Legal, Complete, LegalNext, Holder, InProgress, SelectionsAre, ExecutionsAre, Numbers, PendingInv, ExecutionInv,
         HandlerAnswered, FlagsAre, Took;
    AcceptedFacts(s, c, sbo, now);
    Snoc(s.log, Accepted(c, sbo, now));
    TookIs(s, c, sbo, now);
    var t := Took(s, c, sbo, now);
    TookPending(s, t, c);
    TookExecutions(s, t, c);
    TookFlags(s, t, c);
  }

  lemma TookIs(s: State, c: Command, sbo: bool, now: int)
    ensures var t := Took(s, c, sbo, now);
            && t.log == s.log + [Accepted(c, sbo, now)] && t.log[..|s.log|] == s.log && AcceptedIn(t.log, c)
            && t.selections == s.selections - {c.key} && t.opRcvd == s.opRcvd + {c.key} && t.opOk == s.opOk
            && t.executions == s.executions[c.key := Execution(Some(c.client), c)] && t.pending == s.pending
            && t.connected == s.connected && t.next == s.next + 1
  {
    var t := Took(s, c, sbo, now);
    assert t.log[|s.log|] == Accepted(c, sbo, now);
  }

  // A fact that changes nothing but the history.
  lemma NotedFacts(s: State, f: Fact)
    requires SelectionsAre(s) && ExecutionsAre(s) && Numbers(s) && (f.Refused? || f.Responded? || f.Terminated?)
    ensures SelectionsAre(Noted(s, f)) && ExecutionsAre(Noted(s, f)) && Numbers(Noted(s, f))
  {
    var t := Noted(s, f);
    assert t.log[..|s.log|] == s.log;
  }

  // A command that waits: for its response, or for its time.
  lemma WaitInv(s: State, c: Command, p: Pending)
    requires InvBut(s, c, false) && p.command == c && (p.Reply? ==> c.enhanced) && (p.Timer? ==> c.delayed)
    requires c.enhanced ==> Responded(c, true) in s.log
    ensures Inv(s.(pending := s.pending + [p]))
  {
    hide Legal, Complete, Holder, InProgress, SelectionsAre, ExecutionsAre, Numbers;
    var t := s.(pending := s.pending + [p]);
    SameLog(s, t);
    assert ExecutionInv(t, c.key);
    forall k | k in t.executions && k != c.key
      ensures ExecutionInv(t, k) && HandlerAnswered(t, k) == HandlerAnswered(s, k)
    {
      assert ExecutionInv(s, k);
      SamePending(s, t, k, p);
    }
    assert t.pending[|s.pending|] == p;
    assert forall i :: 0 <= i < |s.pending| ==> s.pending[i].command.key != c.key by {
      assert forall i :: 0 <= i < |s.pending| ==> s.pending[i].command != c;
    }
  }

  lemma SameLog(s: State, t: State)
    requires s.log == t.log && s.selections == t.selections && s.executions == t.executions && s.next == t.next
    ensures SelectionsAre(s) == SelectionsAre(t) && ExecutionsAre(s) == ExecutionsAre(t) && Numbers(s) == Numbers(t)
  {
  }

  lemma SamePending(s: State, t: State, k: Key, p: Pending)
    requires t.executions == s.executions && t.pending == s.pending + [p]
    requires k in s.executions && s.executions[k].command != p.command
    ensures HandlerAnswered(t, k) == HandlerAnswered(s, k)
  {
    if HandlerAnswered(t, k) {
      forall i | 0 <= i < |s.pending|
        ensures s.pending[i].command != s.executions[k].command
      {
        assert t.pending[i] == s.pending[i];
      }
    }
  }

  // The positive or negative response, and a refusal before it.
  lemma RespondedInv(s: State, c: Command, given: bool, f: Fact)
    requires InvBut(s, c, given) && (f.Refused? || (f.Responded? && AcceptedIn(s.log, f.command)))
    ensures InvBut(Noted(s, f), c, given)
    ensures forall d :: AcceptedIn(s.log, d) ==> AcceptedIn(Noted(s, f).log, d)
  {
    hide Legal, Complete, Holder, InProgress, SelectionsAre, ExecutionsAre, Numbers;
    Snoc(s.log, f);
    NotedFacts(s, f);
    var t := Noted(s, f);
    assert t.log[..|s.log|] == s.log;
    forall k | k in t.executions && k != c.key
      ensures ExecutionInv(t, k)
    {
      assert ExecutionInv(s, k);
    }
    assert forall k :: HandlerAnswered(t, k) == HandlerAnswered(s, k);
    forall d | AcceptedIn(s.log, d)
      ensures AcceptedIn(t.log, d)
    {
      var i :| 0 <= i < |s.log| && s.log[i].Accepted? && s.log[i].command == d;
      assert t.log[i] == s.log[i];
    }
  }

  // In execution, its handler has answered.
  lemma InExecutionInv(s: State, c: Command, given: bool)
    requires InvBut(s, c, given) && (c.enhanced ==> Responded(c, true) in s.log)
    ensures Inv(s.(opOk := s.opOk + {c.key}))
  {
    hide Legal, Complete, Holder, InProgress, SelectionsAre, ExecutionsAre, Numbers;
    var t := s.(opOk := s.opOk + {c.key});
    SameLog(s, t);
    assert ExecutionInv(t, c.key);
    forall k | k in t.executions && k != c.key
      ensures ExecutionInv(t, k)
    {
      assert ExecutionInv(s, k);
    }
    assert forall k :: HandlerAnswered(t, k) == HandlerAnswered(s, k);
  }

  // The end of a command, and its termination in enhanced security.
  function EndOf(s: State, c: Command, a: Answer): State {
    var t := EndCommand(s.(executions := s.executions - {c.key}), c);
    if c.enhanced then Terminate(t, c.client, c, a) else t
  }

  lemma EndedFacts(s: State, c: Command)
    requires SelectionsAre(s) && ExecutionsAre(s) && Numbers(s) && c.key in s.executions && s.executions[c.key].command == c
    ensures var f := Ended(c, c.client in s.connected);
            var t := Noted(s.(executions := s.executions - {c.key}), f);
            LegalNext(s.log, f) && SelectionsAre(t) && ExecutionsAre(t) && Numbers(t)
  {
    var f := Ended(c, c.client in s.connected);
    assert (s.log + [f])[..|s.log|] == s.log;
    assert InProgress(s.log, c.key) == Some(c);
  }

  lemma CompleteEnd(log: seq<Fact>, f: Fact, g: Fact)
    requires Complete(log) && f.Ended?
    ensures !(f.connected && f.command.enhanced) ==> Complete(log + [f])
    ensures g.Terminated? && g.command == f.command ==> Complete(log + [f] + [g])
  {
    assert forall i :: 0 <= i < |log| ==> (log + [f])[i] == log[i];
    assert forall i :: 0 <= i < |log| ==> (log + [f] + [g])[i] == log[i];
    assert (log + [f] + [g])[|log|] == f && (log + [f] + [g])[|log| + 1] == g;
  }

  lemma EndOfLog(s: State, c: Command, a: Answer)
    requires Legal(s.log) && Complete(s.log) && LegalNext(s.log, Ended(c, c.client in s.connected)) && !a.InExecution?
    requires c.enhanced ==> Responded(c, true) in s.log
    ensures var t := EndOf(s, c, a); Legal(t.log) && Complete(t.log)
    ensures forall f :: f in s.log ==> f in EndOf(s, c, a).log
  {
    hide Legal, Complete, Holder, InProgress;
    var f := Ended(c, c.client in s.connected);
    var g := Terminated(c.client, c, a);
    Snoc(s.log, f);
    CompleteEnd(s.log, f, g);
    if c.enhanced && c.client in s.connected {
      assert LegalNext(s.log + [f], g);
      Snoc(s.log + [f], g);
    }
  }

  lemma EndOfFacts(s: State, c: Command, a: Answer)
    requires SelectionsAre(s) && ExecutionsAre(s) && Numbers(s) && c.key in s.executions && s.executions[c.key].command == c
    ensures LegalNext(s.log, Ended(c, c.client in s.connected))
    ensures var t := EndOf(s, c, a); SelectionsAre(t) && ExecutionsAre(t) && Numbers(t)
  {
    hide SelectionsAre, ExecutionsAre, Numbers, LegalNext;
    EndedFacts(s, c);
    var t := EndCommand(s.(executions := s.executions - {c.key}), c);
    SameLog(t, Noted(s.(executions := s.executions - {c.key}), Ended(c, c.client in s.connected)));
    NotedFacts(t, Terminated(c.client, c, a));
  }

  lemma EndOfPending(s: State, t: State, c: Command)
    requires PendingInv(s) && HandlerAnswered(s, c.key) && c.key in s.executions && s.executions[c.key].command == c
    requires t.pending == s.pending && t.executions == s.executions - {c.key}
    ensures PendingInv(t)
    ensures forall k :: k != c.key ==> HandlerAnswered(t, k) == HandlerAnswered(s, k)
  {
    forall i | 0 <= i < |t.pending|
      ensures t.pending[i].command.key in t.executions
    {
      assert s.pending[i].command != c;
    }
  }

  lemma EndOfExecutions(s: State, t: State, c: Command)
    requires forall k :: k in s.executions && k != c.key ==> ExecutionInv(s, k)
    requires t.connected == s.connected && t.next == s.next && t.executions == s.executions - {c.key}
    requires forall f :: f in s.log ==> f in t.log
    ensures forall k :: k in t.executions ==> ExecutionInv(t, k)
  {
    forall k | k in t.executions
      ensures ExecutionInv(t, k)
    {
      assert ExecutionInv(s, k);
    }
  }

  // A command that ends leaves its object free, its flags FALSE, and in enhanced security it
  // is terminated if its client is there.
  lemma EndOfInv(s: State, c: Command, given: bool, a: Answer)
    requires InvBut(s, c, given) && (c.enhanced ==> Responded(c, true) in s.log) && !a.InExecution?
    ensures Inv(EndOf(s, c, a))
  {
    hide Legal, Complete, Holder, InProgress, SelectionsAre, ExecutionsAre, Numbers, LegalNext, PendingInv, ExecutionInv,
         HandlerAnswered, EndOf;
    EndOfFacts(s, c, a);
    EndOfLog(s, c, a);
    EndOfShape(s, c, a);
    EndOfPending(s, EndOf(s, c, a), c);
    EndOfExecutions(s, EndOf(s, c, a), c);
  }

  lemma EndOfShape(s: State, c: Command, a: Answer)
    ensures var t := EndOf(s, c, a);
            t == s.(executions := s.executions - {c.key}, opRcvd := s.opRcvd - {c.key}, opOk := s.opOk - {c.key},
                    log := t.log)
  {
  }

  // --- steps -------------------------------------------------------------------------------

  // A waiting command, its action taken off the list.
  lemma TakenOff(s: State, i: nat)
    requires Inv(s) && i < |s.pending|
    ensures var c := s.pending[i].command;
            && InvBut(s.(pending := s.pending[..i] + s.pending[i + 1..]), c, false)
            && (c.enhanced ==> Responded(c, true) in s.log)
  {
    hide Legal, Complete, Holder, InProgress, SelectionsAre, ExecutionsAre, Numbers;
    var c := s.pending[i].command;
    var t := s.(pending := s.pending[..i] + s.pending[i + 1..]);
    SameLog(s, t);
    assert ExecutionInv(s, c.key);
    assert forall k :: k in s.executions ==> ExecutionInv(s, k) && s.executions[k].command.key == k;
    TakenOffPending(s, t, i);
    assert !HandlerAnswered(s, c.key);
    forall k | k in t.executions && k != c.key
      ensures ExecutionInv(t, k)
    {
      assert ExecutionInv(s, k);
    }
  }

  lemma TakenOffPending(s: State, t: State, i: nat)
    requires forall k :: k in s.executions ==> s.executions[k].command.key == k
    requires PendingInv(s) && i < |s.pending| && t == s.(pending := s.pending[..i] + s.pending[i + 1..])
    ensures var c := s.pending[i].command;
            && PendingInv(t) && HandlerAnswered(t, c.key)
            && (forall k :: k != c.key ==> (k in s.executions ==> (HandlerAnswered(t, k) <==> HandlerAnswered(s, k))))
  {
    var c := s.pending[i].command;
    assert forall j :: 0 <= j < |t.pending| ==> t.pending[j] == s.pending[if j < i then j else j + 1];
    forall k | k != c.key && k in s.executions && HandlerAnswered(t, k)
      ensures HandlerAnswered(s, k)
    {
      forall j | 0 <= j < |s.pending|
        ensures s.pending[j].command != s.executions[k].command
      {
        if j < i {
          assert t.pending[j] == s.pending[j];
        } else if j > i {
          assert t.pending[j - 1] == s.pending[j];
        }
      }
    }
  }

  // The timer of a time-activated command is set.
  lemma TimerInv(s: State, c: Command)
    requires InvBut(s, c, false) && (c.enhanced ==> Responded(c, true) in s.log) && c.delayed
    ensures Inv(s.(pending := s.pending + [Timer(c)]))
  {
    hide InvBut;
    WaitInv(s, c, Timer(c));
  }

  lemma RunCommandIs(s: State, c: Command, given: bool, answer: Answer)
    requires InvBut(s, c, given)
    ensures var a := if c.test then Done else answer;
            RunCommand(s, c, answer)
            == (if a.InExecution? then s.(opOk := s.opOk + {c.key})
                else EndCommand(s.(executions := s.executions - {c.key}), c), a)
  {
    hide Legal, Complete, Holder, InProgress, SelectionsAre, ExecutionsAre, Numbers, PendingInv, ExecutionInv, HandlerAnswered;
    assert s.executions[c.key := s.executions[c.key]] == s.executions;
    assert (s.opOk + {c.key}) - {c.key} == s.opOk - {c.key};
  }

  lemma RunPendingInv(s: State, i: nat, answer: Answer)
    requires Inv(s) && i < |s.pending|
    ensures Inv(RunPending(s, i, answer))
  {
    hide Inv, InvBut, RunCommand, EndCommand, HandlerAnswered;
    var p := s.pending[i];
    var t := s.(pending := s.pending[..i] + s.pending[i + 1..]);
    TakenOff(s, i);
    if p.Reply? && p.command.delayed {
      TimerInv(t, p.command);
    } else {
      RunCommandIs(t, p.command, false, answer);
      var a := if p.command.test then Done else answer;
      if a.InExecution? {
        InExecutionInv(t, p.command, false);
      } else {
        EndOfInv(t, p.command, false, a);
      }
    }
  }

  // A command its application ends: HandlerAnswered is what the engine asks of it.
  lemma FinishInv(s: State, key: Key, answer: Answer)
    requires Inv(s) && HandlerAnswered(s, key) && !answer.InExecution?
    ensures Inv(Finish(s, key, answer).0)
  {
    if key in s.executions {
      hide Legal, Complete, Holder, InProgress, SelectionsAre, ExecutionsAre, Numbers, PendingInv, Terminate;
      var e := s.executions[key];
      assert ExecutionInv(s, key);
      EndOfInv(s, e.command, true, answer);
      if e.command.client !in s.connected {
        NobodyThere(s, e.command, answer);
      }
    }
  }

  lemma NobodyThere(s: State, c: Command, a: Answer)
    requires c.client !in s.connected
    ensures var t := EndCommand(s.(executions := s.executions - {c.key}), c); Terminate(t, c.client, c, a) == t
  {
  }

  lemma AdmitInv(s: State, c: Client, key: Key, m: CtlModel, o: Oper)
    requires Inv(s)
    ensures var (t, cause) := Admit(s, c, key, m, o);
            && Inv(t) && t.connected == s.connected && t.executions == s.executions
            && (cause.None? ==> && key !in t.executions
                                && (IsSbo(m) ==> key in t.selections && t.selections[key].client == c
                                                 && o.now <= t.selections[key].until))
  {
    hide Inv, Current;
    if !m.StatusOnly? && IsSbo(m) {
      CurrentInv(s, key, o.now);
    }
  }

  lemma RunNowInv(s: State, c: Command, sbo: bool, now: int, answer: Answer)
    requires Inv(s) && c.key !in s.executions && c.id == s.next && c.client in s.connected && !c.enhanced
    requires sbo ==> c.key in s.selections && s.selections[c.key].client == c.client && now <= s.selections[c.key].until
    ensures Inv(RunNow(Accept(s, c, sbo, now), c, answer).0)
  {
    var u := Took(s, c, sbo, now);
    TookInv(s, c, sbo, now);
    var a := if c.test then Done else answer;
    RunNowIs(s, c, sbo, now, answer);
    hide Inv, InvBut, RunCommand, Took, EndCommand, Accept, AcceptedIn, EndOf;
    if a.InExecution? {
      RespondedInv(u, c, false, Responded(c, true));
      InExecutionInv(Noted(u, Responded(c, true)), c, false);
    } else {
      EndOfInv(u, c, false, a);
      EndAccepted(u, c, a);
      var t := EndOf(u, c, a);
      if a.Failed? {
        RefusedInv(t, c.client, c.key, a.cause);
        MoreAccepted(t, Refused(c.client, c.key, a.cause), c);
        LateResponse(Refuse(t, c.client, c.key, a.cause), c, false);
      } else {
        LateResponse(t, c, true);
      }
    }
  }

  // What running a command at once does, seen from its being taken.
  lemma RunNowIs(s: State, c: Command, sbo: bool, now: int, answer: Answer)
    requires c.key !in s.executions && !c.enhanced && InvBut(Took(s, c, sbo, now), c, false)
    ensures var u := Took(s, c, sbo, now);
            var a := if c.test then Done else answer;
            RunNow(Accept(s, c, sbo, now), c, answer).0
            == if a.InExecution? then Noted(u, Responded(c, true)).(opOk := u.opOk + {c.key})
               else if a.Failed? then Noted(Refuse(EndOf(u, c, a), c.client, c.key, a.cause), Responded(c, false))
               else Noted(EndOf(u, c, a), Responded(c, true))
  {
    hide InvBut;
    var t, u := Accept(s, c, sbo, now), Took(s, c, sbo, now);
    assert t.executions - {c.key} == u.executions - {c.key} == t.executions;
    assert (t.opOk + {c.key}) - {c.key} == t.opOk - {c.key};
  }

  lemma EndAccepted(s: State, c: Command, a: Answer)
    requires AcceptedIn(s.log, c)
    ensures AcceptedIn(EndOf(s, c, a).log, c)
  {
    var i :| 0 <= i < |s.log| && s.log[i].Accepted? && s.log[i].command == c;
    assert EndOf(s, c, a).log[i] == s.log[i];
  }

  lemma MoreAccepted(s: State, f: Fact, c: Command)
    requires AcceptedIn(s.log, c)
    ensures AcceptedIn(Noted(s, f).log, c)
  {
    var i :| 0 <= i < |s.log| && s.log[i].Accepted? && s.log[i].command == c;
    assert Noted(s, f).log[i] == s.log[i];
  }

  lemma LateResponse(s: State, c: Command, positive: bool)
    requires Inv(s) && AcceptedIn(s.log, c)
    ensures Inv(Noted(s, Responded(c, positive)))
  {
    hide Legal, Complete, Holder, InProgress, SelectionsAre, ExecutionsAre, Numbers;
    var f := Responded(c, positive);
    Snoc(s.log, f);
    NotedFacts(s, f);
    var t := Noted(s, f);
    forall k | k in t.executions
      ensures ExecutionInv(t, k)
    {
      assert ExecutionInv(s, k);
    }
    assert forall k :: HandlerAnswered(t, k) == HandlerAnswered(s, k);
  }

  lemma OperateInv(s: State, c: Client, key: Key, m: CtlModel, o: Oper)
    requires Inv(s) && c in s.connected
    ensures Inv(Operate(s, c, key, m, o).0)
  {
    hide Inv, Admit, Accept, Wait, RunNow, Refuse;
    var (t, cause) := Admit(s, c, key, m, o);
    AdmitInv(s, c, key, m, o);
    if cause.Some? {
      RefusedInv(t, c, key, cause.value);
    } else {
      var command := CommandOf(t, c, key, m, o);
      if command.enhanced {
        WaitingInv(t, command, IsSbo(m), o.now, Reply(command));
      } else if command.delayed {
        WaitingInv(t, command, IsSbo(m), o.now, Timer(command));
      } else {
        RunNowInv(t, command, IsSbo(m), o.now, o.answer);
      }
    }
  }

  lemma WaitingInv(s: State, c: Command, sbo: bool, now: int, p: Pending)
    requires Inv(s) && c.key !in s.executions && c.id == s.next && c.client in s.connected
    requires sbo ==> c.key in s.selections && s.selections[c.key].client == c.client && now <= s.selections[c.key].until
    requires p.command == c && (p.Reply? ==> c.enhanced) && (p.Timer? ==> c.delayed)
    ensures Inv(Wait(Accept(s, c, sbo, now), c, p))
  {
    hide Inv, InvBut, AcceptedIn;
    var u := Took(s, c, sbo, now);
    TookInv(s, c, sbo, now);
    RespondedInv(u, c, false, Responded(c, true));
    WaitInv(Noted(u, Responded(c, true)), c, p);
  }

  // --- disconnection -----------------------------------------------------------------------

  lemma CloseSelections(s: State, c: Client)
    requires SelectionsAre(s) && ExecutionsAre(s) && Numbers(s)
    ensures var t := Close(s, c); SelectionsAre(t) && ExecutionsAre(t) && Numbers(t)
  {
    var t := Close(s, c);
    assert t.log[..|s.log|] == s.log;
  }

  lemma CloseExecutions(s: State, c: Client)
    requires forall k :: k in s.executions ==> ExecutionInv(s, k)
    ensures var t := Close(s, c); forall k :: k in t.executions ==> ExecutionInv(t, k)
  {
    var t := Close(s, c);
    assert t.log[|s.log|] == Gone(c);
    forall k | k in t.executions
      ensures ExecutionInv(t, k)
    {
      assert ExecutionInv(s, k);
    }
  }

  lemma CloseInv(s: State, c: Client)
    requires Inv(s)
    ensures Inv(Close(s, c))
  {
    hide Legal, LegalNext, Complete, Holder, InProgress, SelectionsAre, ExecutionsAre, Numbers, ExecutionInv, PendingInv,
         HandlerAnswered, Close;
    CloseSelections(s, c);
    CloseExecutions(s, c);
    Snoc(s.log, Gone(c));
    ClosePending(s, c);
    CloseIs(s, c);
    assert Quiet(Gone(c)) && LegalNext(s.log, Gone(c)) by { GoneIsLegal(s.log, c); }
  }

  lemma GoneIsLegal(log: seq<Fact>, c: Client)
    ensures LegalNext(log, Gone(c))
  {
  }

  lemma CloseIs(s: State, c: Client)
    ensures var t := Close(s, c);
            && t.log == s.log + [Gone(c)] && t.connected == s.connected - {c} && t.opRcvd == s.opRcvd && t.opOk == s.opOk
            && t.selections == Without(s.selections, c) && t.executions.Keys == s.executions.Keys
  {
  }

  lemma ClosePending(s: State, c: Client)
    requires PendingInv(s)
    ensures PendingInv(Close(s, c)) && forall k :: HandlerAnswered(Close(s, c), k) == HandlerAnswered(s, k)
  {
  }

  lemma ConnectInv(s: State, c: Client)
    requires Inv(s) && forall i :: 0 <= i < |s.log| ==> s.log[i] != Gone(c)
    ensures Inv(s.(connected := s.connected + {c}))
  {
    hide Legal, Complete, Holder, InProgress, SelectionsAre, ExecutionsAre, Numbers;
    var t := s.(connected := s.connected + {c});
    SameLog(s, t);
    forall k | k in t.executions
      ensures ExecutionInv(t, k)
    {
      assert ExecutionInv(s, k);
    }
    assert forall k :: HandlerAnswered(t, k) == HandlerAnswered(s, k);
  }

  // --- whole runs --------------------------------------------------------------------------

  lemma StepInv(s: State, e: Event)
    requires Inv(s) && Possible(s, e)
    ensures Inv(Step(s, e))
  {
    hide Inv, ReadSbo, SelectWithValue, Cancel, Operate, RunPending, Finish, Close, HandlerAnswered;
    match e
    case Connects(c) => ConnectInv(s, c);
    case ReadsSbo(c, key, m, now, timeout) => ReadSboInv(s, c, key, m, now, timeout);
    case WritesSbow(c, key, m, now, timeout, check) => SelectWithValueInv(s, c, key, m, now, timeout, check);
    case WritesCancel(c, key, m, now) => CancelInv(s, c, key, m, now);
    case WritesOper(c, key, m, oper) => OperateInv(s, c, key, m, oper);
    case Runs(i, answer) =>
      if i < |s.pending| {
        RunPendingInv(s, i, answer);
      }
    case Finishes(key, answer) => FinishInv(s, key, answer);
    case Closes(c) => CloseInv(s, c);
  }

  function Run(es: seq<Event>): State {
    if es == [] then Fresh() else Step(Run(es[..|es| - 1]), es[|es| - 1])
  }

  predicate PossibleRun(es: seq<Event>) {
    es == [] || (PossibleRun(es[..|es| - 1]) && Possible(Run(es[..|es| - 1]), es[|es| - 1]))
  }

  // In every run the history stays legal and complete, and the dictionaries are what it says.
  lemma {:induction false} RunInv(es: seq<Event>)
    requires PossibleRun(es)
    ensures Inv(Run(es))
  {
    hide Inv, Step, Possible;
    if es == [] {
      FreshInv();
    } else {
      RunInv(es[..|es| - 1]);
      StepInv(Run(es[..|es| - 1]), es[|es| - 1]);
    }
  }

  // --- one termination for each command ----------------------------------------------------

  predicate EndsAt(log: seq<Fact>, i: nat, c: Command) {
    i < |log| && log[i].Ended? && log[i].command == c
  }

  predicate TerminatedAt(log: seq<Fact>, i: nat, c: Command) {
    i < |log| && log[i].Terminated? && log[i].command == c
  }

  lemma {:induction false} LegalPrefix(log: seq<Fact>, n: nat)
    requires Legal(log) && n <= |log|
    ensures Legal(log[..n])
    ensures n < |log| ==> LegalNext(log[..n], log[n])
    decreases |log| - n
  {
    hide LegalNext;
    if n == |log| {
      assert log[..n] == log;
    } else {
      LegalPrefix(log, n + 1);
      assert log[..n + 1][..n] == log[..n];
    }
  }

  predicate NeverEnds(log: seq<Fact>, c: Command) {
    forall j :: 0 <= j < |log| ==> !EndsAt(log, j, c)
  }

  lemma EndsBefore(log: seq<Fact>, c: Command)
    requires log != [] && NeverEnds(log[..|log| - 1], c) && !EndsAt(log, |log| - 1, c)
    ensures NeverEnds(log, c)
  {
    forall j | 0 <= j < |log|
      ensures !EndsAt(log, j, c)
    {
      assert j < |log| - 1 ==> EndsAt(log[..|log| - 1], j, c) == EndsAt(log, j, c);
    }
  }

  lemma AcceptedLater(log: seq<Fact>, n: nat, i: nat, c: Command)
    requires n <= i <= |log| && AcceptedIn(log[..n], c)
    ensures AcceptedIn(log[..i], c)
  {
    var k :| 0 <= k < n && log[..n][k].Accepted? && log[..n][k].command == c;
    assert log[..i][k] == log[..n][k];
  }

  // What is in progress was accepted, and has not ended since.
  lemma {:induction false} ProgressIs(log: seq<Fact>, key: Key, c: Command)
    requires Legal(log) && InProgress(log, key) == Some(c)
    ensures c.key == key && AcceptedIn(log, c) && NeverEnds(log, c)
    decreases |log|, 1
  {
    hide Holder;
    var n := |log| - 1;
    var before := log[..n];
    if log[n].Accepted? && log[n].command.key == key {
      AcceptedIsNew(before, c);
    } else {
      ProgressIs(before, key, c);
      AcceptedLater(log, n, n + 1, c);
      assert log[..n + 1] == log;
    }
    EndsBefore(log, c);
  }

  // What was not accepted has not ended.
  lemma AcceptedIsNew(log: seq<Fact>, c: Command)
    requires Legal(log) && !AcceptedIn(log, c)
    ensures NeverEnds(log, c)
    decreases |log|, 3
  {
    forall j | 0 <= j < |log|
      ensures !EndsAt(log, j, c)
    {
      if EndsAt(log, j, c) {
        EndWasAccepted(log, j, c);
      }
    }
  }

  lemma EndWasAccepted(log: seq<Fact>, i: nat, c: Command)
    requires Legal(log) && EndsAt(log, i, c)
    ensures AcceptedIn(log[..i], c) && AcceptedIn(log, c)
    decreases |log|, 2
  {
    LegalPrefix(log, i);
    ProgressIs(log[..i], c.key, c);
    AcceptedLater(log, i, |log|, c);
    assert log[..|log|] == log;
  }

  lemma NoEndBefore(log: seq<Fact>, i: nat, j: nat, c: Command)
    requires Legal(log) && i < j && EndsAt(log, j, c)
    ensures !EndsAt(log, i, c)
  {
    LegalPrefix(log, j);
    ProgressIs(log[..j], c.key, c);
    assert EndsAt(log[..j], i, c) == EndsAt(log, i, c);
  }

  lemma {:induction false} EndsOnce(log: seq<Fact>, i: nat, j: nat, c: Command)
    requires Legal(log) && EndsAt(log, i, c) && EndsAt(log, j, c)
    ensures i == j
  {
    if i < j {
      NoEndBefore(log, i, j, c);
    } else if j < i {
      NoEndBefore(log, j, i, c);
    }
  }

  // A command accepted is in progress, or has ended.
  lemma {:induction false} AcceptedGoesOn(log: seq<Fact>, c: Command)
    requires Legal(log) && AcceptedIn(log, c)
    ensures InProgress(log, c.key) == Some(c) || exists i :: EndsAt(log, i, c)
  {
    hide Holder;
    var n := |log| - 1;
    var before := log[..n];
    if AcceptedIn(before, c) {
      AcceptedGoesOn(before, c);
      if i :| EndsAt(before, i, c) {
        assert EndsAt(log, i, c);
      } else {
        match log[n]
        case Accepted(d, _, _) => assert d.key != c.key;
        case Ended(d, _) =>
          if d.key == c.key {
            assert EndsAt(log, n, c);
          }
        case _ =>
      }
    } else {
      assert forall k :: 0 <= k < n ==> before[k] == log[k];
      assert log[n].Accepted? && log[n].command == c;
    }
  }

  // The command has not ended, and nothing was sent for it.
  ghost predicate StillRuns(s: State, c: Command) {
    && c.key in s.executions && s.executions[c.key].command == c
    && forall j :: !EndsAt(s.log, j, c) && !TerminatedAt(s.log, j, c)
  }

  // The command ended at `i`, once; its CommandTermination follows, after the positive
  // response, or there is none because its client was gone.
  ghost predicate EndedOnceAt(log: seq<Fact>, c: Command, i: nat) {
    && EndsAt(log, i, c) && (forall j :: EndsAt(log, j, c) ==> j == i)
    && (forall j :: TerminatedAt(log, j, c) <==> j == i + 1 && log[i].connected)
    && (log[i].connected ==> i + 1 < |log| && log[i + 1].Terminated? && log[i + 1].to == c.client
                             && Responded(c, true) in log[..i + 1])
  }

  // Every accepted command of enhanced security gets exactly one CommandTermination once it
  // has ended, to the client that sent it and after the positive response, and none only if
  // that client was gone at its end; until it ends it gets none.
  lemma {:induction false} OneTermination(es: seq<Event>, c: Command)
    requires PossibleRun(es) && c.enhanced && AcceptedIn(Run(es).log, c)
    ensures StillRuns(Run(es), c) || exists i :: EndedOnceAt(Run(es).log, c, i)
  {
    RunInv(es);
    var s := Run(es);
    AcceptedGoesOn(s.log, c);
    hide InProgress, Holder, LegalNext, Run, SelectionsAre, PendingInv, ExecutionInv, Legal, EndedOnceAt;
    if i :| EndsAt(s.log, i, c) {
      OnceEnded(s.log, c, i);
    } else {
      assert ExecutionsAre(s);
      NeverTerminated(s, c);
    }
  }

  lemma OnceEnded(log: seq<Fact>, c: Command, i: nat)
    requires Legal(log) && Complete(log) && c.enhanced && EndsAt(log, i, c)
    ensures EndedOnceAt(log, c, i)
  {
    hide Legal;
    TerminatedAfterEnd(log, c);
    forall j: nat | EndsAt(log, j, c)
      ensures j == i
    {
      EndsOnce(log, i, j, c);
    }
    if log[i].connected {
      assert TerminatedAt(log, i + 1, c);
    }
  }

  // A termination follows the end of its command, and its positive response.
  predicate FollowsEnd(log: seq<Fact>, j: nat, c: Command)
    requires j < |log| && log[j].Terminated?
  {
    && c.enhanced && 1 <= j && EndsAt(log, j - 1, c) && log[j - 1].connected && log[j].to == c.client
    && Responded(c, true) in log[..j]
  }

  lemma {:induction false} TerminatedAfterEnd(log: seq<Fact>, c: Command)
    requires Legal(log)
    ensures forall j: nat :: TerminatedAt(log, j, c) ==> FollowsEnd(log, j, c)
  {
    forall j: nat | TerminatedAt(log, j, c)
      ensures FollowsEnd(log, j, c)
    {
      LegalPrefix(log, j);
      assert log[..j][j - 1] == log[j - 1];
    }
  }

  lemma NeverTerminated(s: State, c: Command)
    requires Legal(s.log) && forall i :: !EndsAt(s.log, i, c)
    ensures forall j :: !TerminatedAt(s.log, j, c)
  {
    hide Legal;
    TerminatedAfterEnd(s.log, c);
  }

  // Refused commands and those of normal security get none.
  lemma {:induction false} NoTermination(es: seq<Event>, c: Command)
    requires PossibleRun(es) && (!c.enhanced || !AcceptedIn(Run(es).log, c))
    ensures forall j :: !TerminatedAt(Run(es).log, j, c)
  {
    RunInv(es);
    hide Run;
    TerminatedAfterEnd(Run(es).log, c);
    if !AcceptedIn(Run(es).log, c) {
      AcceptedIsNew(Run(es).log, c);
    }
  }

  // A command ends after it is accepted.
  lemma EndFollowsAccept(log: seq<Fact>, i: nat, n: nat)
    requires Legal(log) && i < |log| && log[i].Accepted? && EndsAt(log, n, log[i].command)
    ensures i < n
  {
    if n < i {
      var c := log[i].command;
      LegalPrefix(log, i);
      hide InProgress, Holder;
      EndWasAccepted(log, n, c);
      AcceptedLater(log, n, i, c);
    }
  }

  // One command at a time: between the acceptance of two commands on an object, the first
  // one ends.
  lemma {:induction false} OneAtATime(es: seq<Event>, i: nat, j: nat)
    requires PossibleRun(es) && i < j < |Run(es).log| && Run(es).log[i].Accepted? && Run(es).log[j].Accepted?
    requires Run(es).log[i].command.key == Run(es).log[j].command.key
    ensures exists n: nat :: i < n < j && EndsAt(Run(es).log, n, Run(es).log[i].command)
  {
    RunInv(es);
    hide Run, Holder;
    var log := Run(es).log;
    var c := log[i].command;
    LegalPrefix(log, j);
    var before := log[..j];
    assert before[i] == log[i];
    AcceptedGoesOn(before, c);
    var n :| EndsAt(before, n, c);
    assert EndsAt(log, n, c);
    EndFollowsAccept(log, i, n);
  }

  // --- select before operate ---------------------------------------------------------------

  // What ends or renews the selection of an object by a client.
  predicate Touches(f: Fact, key: Key, c: Client) {
    match f
    case Grant(k, _, _) => k == key
    case Lapse(k, _) => k == key
    case Cancelled(k, _) => k == key
    case Accepted(d, _, _) => d.key == key
    case Gone(d) => d == c
    case _ => false
  }

  // A selection is the last one granted, and nothing has ended it since.
  lemma {:induction false} HolderIsGranted(log: seq<Fact>, key: Key) returns (j: nat)
    requires Holder(log, key).Some?
    ensures var sel := Holder(log, key).value;
            && j < |log| && log[j] == Grant(key, sel.client, sel.until)
            && forall i :: j < i < |log| ==> !Touches(log[i], key, sel.client)
  {
    var n := |log| - 1;
    if log[n].Grant? && log[n].key == key {
      j := n;
    } else {
      j := HolderIsGranted(log[..n], key);
      assert forall i :: j < i < n ==> log[i] == log[..n][i];
    }
  }

  // An Oper of a select-before-operate model is accepted only from the client of a selection
  // granted before, in time, that no lapse, Cancel, disconnection, other selection or earlier
  // command has ended since.
  lemma {:induction false} OperateNeedsSelection(es: seq<Event>, i: nat) returns (j: nat)
    requires PossibleRun(es) && i < |Run(es).log| && Run(es).log[i].Accepted? && Run(es).log[i].sbo
    ensures var log := Run(es).log;
            && j < i && log[j].Grant? && log[j].key == log[i].command.key && log[j].client == log[i].command.client
            && log[i].now <= log[j].until
            && forall n :: j < n < i ==> !Touches(log[n], log[j].key, log[j].client)
  {
    RunInv(es);
    var log := Run(es).log;
    hide Run;
    LegalPrefix(log, i);
    j := HolderIsGranted(log[..i], log[i].command.key);
    assert forall n :: j < n < i ==> log[n] == log[..i][n];
  }

  // A selection is granted while another client's stands only to its holder.
  lemma {:induction false} NeverTwoHolders(es: seq<Event>, i: nat)
    requires PossibleRun(es) && i < |Run(es).log| && Run(es).log[i].Grant?
    ensures var log := Run(es).log;
            Holder(log[..i], log[i].key).None? || Holder(log[..i], log[i].key).value.client == log[i].client
  {
    RunInv(es);
    hide Run;
    LegalPrefix(Run(es).log, i);
  }

  function Grants(log: seq<Fact>, key: Key): nat {
    if log == [] then 0
    else Grants(log[..|log| - 1], key) + (if log[|log| - 1].Grant? && log[|log| - 1].key == key then 1 else 0)
  }

  function Operates(log: seq<Fact>, key: Key): nat {
    if log == [] then 0
    else Operates(log[..|log| - 1], key)
         + (if log[|log| - 1].Accepted? && log[|log| - 1].sbo && log[|log| - 1].command.key == key then 1 else 0)
  }

  // Acceptance consumes the selection: accepted Opers never outnumber granted selections.
  lemma {:induction false} OperatesAreGranted(log: seq<Fact>, key: Key)
    requires Legal(log)
    ensures Operates(log, key) + (if Holder(log, key).Some? then 1 else 0) <= Grants(log, key)
  {
    hide InProgress;
    if log != [] {
      OperatesAreGranted(log[..|log| - 1], key);
    }
  }

  // --- finishing too early -----------------------------------------------------------------

  // What the application is asked is needed: whenever it finishes a waiting command of
  // enhanced security, the command is terminated, then runs all the same and is terminated
  // again.
  lemma FinishedTooEarly(s: State, key: Key, i: nat, a: Answer, answer: Answer)
    requires Inv(s) && key in s.executions && i < |s.pending| && s.pending[i].command == s.executions[key].command
    requires s.executions[key].command.enhanced && s.executions[key].client.Some? && !a.InExecution? && !answer.InExecution?
    requires s.pending[i].Timer? || !s.executions[key].command.delayed
    ensures !HandlerAnswered(s, key)
    ensures var c := s.executions[key].command;
            var t := RunPending(Finish(s, key, a).0, i, answer);
            var n := |s.log|;
            && |t.log| == n + 4 && EndsAt(t.log, n, c) && TerminatedAt(t.log, n + 1, c)
            && EndsAt(t.log, n + 2, c) && TerminatedAt(t.log, n + 3, c)
  {
    hide Legal, Complete, Holder, InProgress, SelectionsAre, ExecutionsAre, Numbers, PendingInv;
    assert ExecutionInv(s, key);
  }
}
