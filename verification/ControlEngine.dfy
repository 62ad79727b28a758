/**
 The mutable control engine of `server/control.py`: its dictionaries, flags and pending
 actions, updated in place by methods that end in the states `Control` says.
 */
module ControlEngine {
  import opened Octets
  import opened Control
  import opened ControlRuns

  lemma StepKeeps(s: State, e: Event)
    ensures Inv(s) && Possible(s, e) ==> Inv(Step(s, e))
  {
    hide Inv, Possible, Step;
    if Inv(s) && Possible(s, e) {
      StepInv(s, e);
    }
  }

  class Engine {
    var selections: map<Key, Selection>
    var executions: map<Key, Execution>
    var pending: seq<Pending>
    var connected: set<Client>
    var opRcvd: set<Key>
    var opOk: set<Key>
    var next: nat
    ghost var log: seq<Fact>

    ghost function Now(): State
      reads this
    {
      State(selections, executions, pending, connected, opRcvd, opOk, next, log)
    }

    // What every reachable state keeps (see ControlRuns).
    ghost predicate Valid()
      reads this
    {
      Inv(Now())
    }

    constructor ()
      ensures Now() == Fresh() && Valid()
    {
      selections, executions, pending, connected, opRcvd, opOk, next := map[], map[], [], {}, {}, {}, 0;
      log := [];
      new;
      FreshInv();
    }

    method Connect(c: Client)
      modifies this
      ensures Now() == Step(old(Now()), Connects(c))
      ensures old(Valid() && Possible(Now(), Connects(c))) ==> Valid()
    {
      hide Inv, Possible;
      StepKeeps(Now(), Connects(c));
      connected := connected + {c};
    }

    // `_selected_by`: a selection that has lapsed is dropped.
    method SelectedBy(key: Key, now: int) returns (holder: Option<Client>)
      modifies this
      ensures Now() == Current(old(Now()), key, now)
      ensures holder == if key in selections then Some(selections[key].client) else None
    {
      if key !in selections {
        return None;
      }
      if now > selections[key].until {
        selections := selections - {key};
        log := log + [Lapse(key, now)];
        return None;
      }
      return Some(selections[key].client);
    }

    method Select(key: Key, c: Client, until: int)
      modifies this
      ensures Now() == Selected(old(Now()), key, c, until)
    {
      selections := selections[key := Selection(c, until)];
      log := log + [Grant(key, c, until)];
    }

    method OnRead(c: Client, key: Key, m: CtlModel, now: int, timeout: nat) returns (selected: bool)
      modifies this
      ensures (Now(), selected) == ReadSbo(old(Now()), c, key, m, now, timeout)
      ensures old(Valid() && Possible(Now(), ReadsSbo(c, key, m, now, timeout))) ==> Valid()
    {
      hide Inv, Possible, Current, Selected;
      StepKeeps(Now(), ReadsSbo(c, key, m, now, timeout));
      if !m.SboNormal? {
        return false;
      }
      var holder := SelectedBy(key, now);
      if holder.Some? && holder.value != c {
        return false;
      }
      Select(key, c, now + timeout);
      return true;
    }

    // `_refuse`: a LastApplError, then the negative response.
    method RefuseWith(c: Client, key: Key, cause: int)
      modifies this
      ensures Now() == Refuse(old(Now()), c, key, cause)
    {
      log := log + [Refused(c, key, cause)];
    }

    method CheckCommand(key: Key, check: Option<int>) returns (cause: Option<int>)
      ensures cause == Check(Now(), key, check)
    {
      if key in executions {
        return Some(COMMAND_IN_EXECUTION);
      }
      return check;
    }

    method OnCancel(c: Client, key: Key, m: CtlModel, now: int) returns (ok: bool)
      modifies this
      ensures (Now(), ok) == Cancel(old(Now()), c, key, m, now)
      ensures old(Valid() && Possible(Now(), WritesCancel(c, key, m, now))) ==> Valid()
    {
      hide Inv, Possible, Current, Refuse;
      StepKeeps(Now(), WritesCancel(c, key, m, now));
      if m.StatusOnly? {
        RefuseWith(c, key, NOT_SUPPORTED);
        return false;
      }
      var holder := SelectedBy(key, now);
      if holder == Some(c) {
        selections := selections - {key};
        log := log + [Cancelled(key, c)];
      }
      return true;
    }

    method OnSbow(c: Client, key: Key, m: CtlModel, now: int, timeout: nat, check: Option<int>) returns (ok: bool)
      modifies this
      ensures (Now(), ok) == SelectWithValue(old(Now()), c, key, m, now, timeout, check)
      ensures old(Valid() && Possible(Now(), WritesSbow(c, key, m, now, timeout, check))) ==> Valid()
    {
      hide Inv, Possible, Current, Selected, Refuse;
      StepKeeps(Now(), WritesSbow(c, key, m, now, timeout, check));
      if !m.SboEnhanced? {
        RefuseWith(c, key, NOT_SUPPORTED);
        return false;
      }
      var holder := SelectedBy(key, now);
      if holder.Some? && holder.value != c {
        RefuseWith(c, key, ALREADY_SELECTED);
        return false;
      }
      var cause := CheckCommand(key, check);
      if cause.Some? {
        RefuseWith(c, key, cause.value);
        return false;
      }
      Select(key, c, now + timeout);
      return true;
    }

    method End(c: Command)
      modifies this
      ensures Now() == EndCommand(old(Now()), c)
    {
      opOk := opOk - {c.key};
      opRcvd := opRcvd - {c.key};
      log := log + [Ended(c, c.client in connected)];
    }

    // `_run`, with what the handler would answer.
    method RunIt(c: Command, answer: Answer) returns (a: Answer)
      modifies this
      ensures (Now(), a) == RunCommand(old(Now()), c, answer)
    {
      hide EndCommand;
      if c.key in executions && executions[c.key].command != c {
        return Failed(COMMAND_IN_EXECUTION);
      }
      a := if c.test then Done else answer;
      if !a.Failed? && !c.test {
        opOk := opOk + {c.key};
      }
      if a.InExecution? {
        var client := if c.key in executions then executions[c.key].client else Some(c.client);
        executions := executions[c.key := Execution(client, c)];
      } else {
        executions := executions - {c.key};
        End(c);
      }
    }

    method SendTermination(to: Client, c: Command, a: Answer)
      modifies this
      ensures Now() == Terminate(old(Now()), to, c, a)
    {
      if to in connected {
        log := log + [Terminated(to, c, a)];
      }
    }

    method RunAndTerminate(c: Command, answer: Answer)
      modifies this
      ensures Now() == RunThenTerminate(old(Now()), c, answer)
    {
      hide RunCommand, Terminate;
      var a := RunIt(c, answer);
      if !a.InExecution? {
        SendTermination(c.client, c, a);
      }
    }

    method Admitted(c: Client, key: Key, m: CtlModel, o: Oper) returns (cause: Option<int>)
      modifies this
      ensures (Now(), cause) == Admit(old(Now()), c, key, m, o)
    {
      hide Current;
      if m.StatusOnly? {
        return Some(NOT_SUPPORTED);
      }
      if IsSbo(m) {
        var holder := SelectedBy(key, o.now);
        if holder != Some(c) {
          return Some(NOT_SELECTED);
        }
      }
      if !o.fits {
        return Some(INCONSISTENT_PARAMETERS);
      }
      cause := CheckCommand(key, o.check);
    }

    method Taken(c: Command, sbo: bool, now: int)
      modifies this
      ensures Now() == Accept(old(Now()), c, sbo, now)
    {
      selections := selections - {c.key};
      opRcvd := opRcvd + {c.key};
      next := next + 1;
      log := log + [Accepted(c, sbo, now)];
    }

    method Leave(c: Command, p: Pending)
      modifies this
      ensures Now() == Wait(old(Now()), c, p)
    {
      executions := executions[c.key := Execution(Some(c.client), c)];
      pending := pending + [p];
      log := log + [Responded(c, true)];
    }

    method RunAtOnce(c: Command, answer: Answer) returns (ok: bool)
      modifies this
      ensures (Now(), ok) == RunNow(old(Now()), c, answer)
    {
      hide RunCommand;
      var a := RunIt(c, answer);
      ok := !a.Failed?;
      if a.Failed? {
        RefuseWith(c.client, c.key, a.cause);
      }
      log := log + [Responded(c, ok)];
    }

    method OnOper(c: Client, key: Key, m: CtlModel, o: Oper) returns (ok: bool)
      modifies this
      ensures (Now(), ok) == Operate(old(Now()), c, key, m, o)
      ensures old(Valid() && Possible(Now(), WritesOper(c, key, m, o))) ==> Valid()
    {
      hide Inv, Possible, Admit, Refuse, Accept, Wait, RunNow;
      StepKeeps(Now(), WritesOper(c, key, m, o));
      var cause := Admitted(c, key, m, o);
      if cause.Some? {
        RefuseWith(c, key, cause.value);
        return false;
      }
      var enhanced := m.DirectEnhanced? || m.SboEnhanced?;
      var command := Command(next, key, c, o.test, enhanced, o.delayed);
      Taken(command, IsSbo(m), o.now);
      if enhanced {
        Leave(command, Reply(command));
        return true;
      }
      if o.delayed {
        Leave(command, Timer(command));
        return true;
      }
      ok := RunAtOnce(command, o.answer);
    }

    // An action after the response, or a timer.
    method OnPending(i: nat, answer: Answer)
      requires i < |pending|
      modifies this
      ensures Now() == RunPending(old(Now()), i, answer)
      ensures old(Valid() && Possible(Now(), Runs(i, answer))) ==> Valid()
    {
      hide Inv, Possible, RunThenTerminate, RunCommand;
      StepKeeps(Now(), Runs(i, answer));
      var p := pending[i];
      pending := pending[..i] + pending[i + 1..];
      if p.Reply? && p.command.delayed {
        pending := pending + [Timer(p.command)];
      } else if p.command.enhanced {
        RunAndTerminate(p.command, answer);
      } else {
        var a := RunIt(p.command, answer);
      }
    }

    method OnFinish(key: Key, answer: Answer) returns (ended: bool)
      modifies this
      ensures (Now(), ended) == Finish(old(Now()), key, answer)
      ensures old(Valid() && Possible(Now(), Finishes(key, answer))) ==> Valid()
    {
      hide Inv, Possible, EndCommand, Terminate;
      StepKeeps(Now(), Finishes(key, answer));
      if key !in executions {
        return false;
      }
      var e := executions[key];
      executions := executions - {key};
      End(e.command);
      if e.command.enhanced && e.client.Some? {
        SendTermination(e.client.value, e.command, answer);
      }
      return true;
    }

    // `_on_close`: the client's selections go, one after the other; its commands go on.
    method OnClose(c: Client)
      modifies this
      ensures Now() == Close(old(Now()), c)
      ensures old(Valid() && Possible(Now(), Closes(c))) ==> Valid()
    {
      hide Inv, Possible;
      StepKeeps(Now(), Closes(c));
      DropSelections(c);
      ForgetClient(c);
      connected := connected - {c};
      log := log + [Gone(c)];
    }

    method DropSelections(c: Client)
      modifies `selections
      ensures selections == Without(old(selections), c)
    {
      var left := selections.Keys;
      while left != {}
        invariant left <= old(selections).Keys
        invariant forall k :: k in selections <==> k in old(selections) && (k in left || old(selections)[k].client != c)
        invariant forall k :: k in selections ==> selections[k] == old(selections)[k]
        decreases |left|
      {
        var k :| k in left;
        if selections[k].client == c {
          selections := selections - {k};
        }
        left := left - {k};
      }
    }

    method ForgetClient(c: Client)
      modifies `executions
      ensures executions == Orphaned(old(executions), c)
    {
      var left := executions.Keys;
      while left != {}
        invariant left <= old(executions).Keys == executions.Keys
        invariant forall k :: k in executions ==>
                    executions[k] == if k in left then old(executions)[k] else Orphaned(old(executions), c)[k]
        decreases |left|
      {
        var k :| k in left;
        if executions[k].client == Some(c) {
          executions := executions[k := executions[k].(client := None)];
        }
        left := left - {k};
      }
    }
  }
}
