/**
 Controls of the MMS server (`server/control.py`, IEC 61850-7-2 clause 20): selections,
 commands in execution, and the steps that run after a response or at operTm. The state holds
 the history of the engine; what is promised of every run is promised of that history.
 `ControlEngine.dfy` holds the mutable engine.
 */
module Control {
  import opened Octets

  type Client = nat

  type Key = nat  // a controllable object

  datatype CtlModel = StatusOnly | DirectNormal | SboNormal | DirectEnhanced | SboEnhanced

  predicate IsSbo(m: CtlModel) {
    m.SboNormal? || m.SboEnhanced?
  }

  predicate IsEnhanced(m: CtlModel) {
    m.DirectEnhanced? || m.SboEnhanced?
  }

  // A command: no two have the same number, as no two Python objects are the same.
  datatype Command = Command(id: nat, key: Key, client: Client, test: bool, enhanced: bool, delayed: bool)

  datatype Selection = Selection(client: Client, until: int)

  // A command in execution; no client once the one that sent it is gone.
  datatype Execution = Execution(client: Option<Client>, command: Command)

  // What is left to do: an action after the response, or at operTm.
  datatype Pending = Reply(command: Command) | Timer(command: Command)

  // What a handler answers.
  datatype Answer = Done | InExecution | Failed(cause: int)

  const NOT_SUPPORTED := 1
  const COMMAND_IN_EXECUTION := 12
  const NOT_SELECTED := 18
  const ALREADY_SELECTED := 19
  const INCONSISTENT_PARAMETERS := 26

  // The history. `Lapse` and `Cancelled` end a selection, `Gone` a connection; `Ended` says
  // whether the client of the command was still connected.
  datatype Fact =
    | Grant(key: Key, client: Client, until: int)
    | Lapse(key: Key, now: int)
    | Cancelled(key: Key, client: Client)
    | Gone(client: Client)
    | Accepted(command: Command, sbo: bool, now: int)
    | Refused(client: Client, key: Key, cause: int)
    | Responded(command: Command, positive: bool)
    | Ended(command: Command, connected: bool)
    | Terminated(to: Client, command: Command, answer: Answer)

  datatype State = State(selections: map<Key, Selection>, executions: map<Key, Execution>, pending: seq<Pending>,
                         connected: set<Client>, opRcvd: set<Key>, opOk: set<Key>, next: nat, log: seq<Fact>)

  function Fresh(): State {
    State(map[], map[], [], {}, {}, {}, 0, [])
  }

  function Noted(s: State, f: Fact): State {
    s.(log := s.log + [f])
  }

  // --- selections --------------------------------------------------------------------------

  // `_selected_by` drops a selection that has lapsed.
  function Current(s: State, key: Key, now: int): State {
    if key in s.selections && now > s.selections[key].until
    then Noted(s.(selections := s.selections - {key}), Lapse(key, now)) else s
  }

  predicate HeldByOther(s: State, key: Key, c: Client) {
    key in s.selections && s.selections[key].client != c
  }

  function Selected(s: State, key: Key, c: Client, until: int): State {
    Noted(s.(selections := s.selections[key := Selection(c, until)]), Grant(key, c, until))
  }

  // `_on_read` of SBO: whether the object was selected.
  function ReadSbo(s: State, c: Client, key: Key, m: CtlModel, now: int, timeout: nat): (State, bool) {
    if !m.SboNormal? then (s, false)
    else
      var t := Current(s, key, now);
      if HeldByOther(t, key, c) then (t, false) else (Selected(t, key, c, now + timeout), true)
  }

  function Refuse(s: State, c: Client, key: Key, cause: int): State {
    Noted(s, Refused(c, key, cause))
  }

  // `_check`: the engine's own reason, then the application's.
  function Check(s: State, key: Key, check: Option<int>): Option<int> {
    if key in s.executions then Some(COMMAND_IN_EXECUTION) else check
  }

  function Cancel(s: State, c: Client, key: Key, m: CtlModel, now: int): (State, bool) {
    if m.StatusOnly? then (Refuse(s, c, key, NOT_SUPPORTED), false)
    else
      var t := Current(s, key, now);
      if key in t.selections && t.selections[key].client == c
      then (Noted(t.(selections := t.selections - {key}), Cancelled(key, c)), true) else (t, true)
  }

  function SelectWithValue(s: State, c: Client, key: Key, m: CtlModel, now: int, timeout: nat, check: Option<int>)
    : (State, bool)
  {
    if !m.SboEnhanced? then (Refuse(s, c, key, NOT_SUPPORTED), false)
    else
      var t := Current(s, key, now);
      if HeldByOther(t, key, c) then (Refuse(t, c, key, ALREADY_SELECTED), false)
      else
        match Check(t, key, check)
        case Some(cause) => (Refuse(t, c, key, cause), false)
        case None => (Selected(t, key, c, now + timeout), true)
  }

  // --- commands ----------------------------------------------------------------------------

  // `_ended`: the flags of the object are FALSE again.
  function EndCommand(s: State, c: Command): State {
    Noted(s.(opRcvd := s.opRcvd - {c.key}, opOk := s.opOk - {c.key}), Ended(c, c.client in s.connected))
  }

  // `_run`: a command with Test set is not given to the handler.
  function RunCommand(s: State, c: Command, answer: Answer): (State, Answer) {
    if c.key in s.executions && s.executions[c.key].command != c then (s, Failed(COMMAND_IN_EXECUTION))
    else
      var a := if c.test then Done else answer;
      var t := if !a.Failed? && !c.test then s.(opOk := s.opOk + {c.key}) else s;
      if a.InExecution? then
        var client := if c.key in s.executions then s.executions[c.key].client else Some(c.client);
        (t.(executions := t.executions[c.key := Execution(client, c)]), a)
      else (EndCommand(t.(executions := t.executions - {c.key}), c), a)
  }

  // A message to a connection that is closed goes nowhere.
  function Terminate(s: State, to: Client, c: Command, a: Answer): State {
    if to in s.connected then Noted(s, Terminated(to, c, a)) else s
  }

  // `_terminate`.
  function RunThenTerminate(s: State, c: Command, answer: Answer): State {
    var (t, a) := RunCommand(s, c, answer);
    if a.InExecution? then t else Terminate(t, c.client, c, a)
  }

  // What an Oper carries: the time it came, whether its value fits, what the application's
  // check says, whether operTm lies in the future, Test, and what the handler would answer.
  datatype Oper = Oper(now: int, fits: bool, check: Option<int>, delayed: bool, test: bool, answer: Answer)

  // The part of `_on_write` after which an Oper is accepted.
  function Admit(s: State, c: Client, key: Key, m: CtlModel, o: Oper): (State, Option<int>) {
    if m.StatusOnly? then (s, Some(NOT_SUPPORTED))
    else
      var t := if IsSbo(m) then Current(s, key, o.now) else s;
      if IsSbo(m) && !(key in t.selections && t.selections[key].client == c) then (t, Some(NOT_SELECTED))
      else if !o.fits then (t, Some(INCONSISTENT_PARAMETERS))
      else (t, Check(t, key, o.check))
  }

  function CommandOf(s: State, c: Client, key: Key, m: CtlModel, o: Oper): Command {
    Command(s.next, key, c, o.test, IsEnhanced(m), o.delayed)
  }

  // Accepted: the selection is consumed.
  function Accept(s: State, c: Command, sbo: bool, now: int): State {
    Noted(s.(selections := s.selections - {c.key}, opRcvd := s.opRcvd + {c.key}, next := s.next + 1),
          Accepted(c, sbo, now))
  }

  function Wait(s: State, c: Command, p: Pending): State {
    Noted(s.(executions := s.executions[c.key := Execution(Some(c.client), c)], pending := s.pending + [p]),
          Responded(c, true))
  }

  // Normal security without operTm: the handler runs before the response.
  function RunNow(s: State, c: Command, answer: Answer): (State, bool) {
    var (t, a) := RunCommand(s, c, answer);
    if a.Failed? then (Noted(Refuse(t, c.client, c.key, a.cause), Responded(c, false)), false)
    else (Noted(t, Responded(c, true)), true)
  }

  function Operate(s: State, c: Client, key: Key, m: CtlModel, o: Oper): (State, bool) {
    var (t, cause) := Admit(s, c, key, m, o);
    if cause.Some? then (Refuse(t, c, key, cause.value), false)
    else
      var command := CommandOf(t, c, key, m, o);
      var u := Accept(t, command, IsSbo(m), o.now);
      if command.enhanced then (Wait(u, command, Reply(command)), true)
      else if command.delayed then (Wait(u, command, Timer(command)), true)
      else RunNow(u, command, o.answer)
  }

  // A pending action runs: after the response of a time-activated command its timer is set.
  function RunPending(s: State, i: nat, answer: Answer): State
    requires i < |s.pending|
  {
    var p := s.pending[i];
    var t := s.(pending := s.pending[..i] + s.pending[i + 1..]);
    if p.Reply? && p.command.delayed then t.(pending := t.pending + [Timer(p.command)])
    else if p.command.enhanced then RunThenTerminate(t, p.command, answer)
    else RunCommand(t, p.command, answer).0
  }

  // `finish`.
  function Finish(s: State, key: Key, answer: Answer): (State, bool) {
    if key !in s.executions then (s, false)
    else
      var e := s.executions[key];
      var t := EndCommand(s.(executions := s.executions - {key}), e.command);
      if e.command.enhanced && e.client.Some? then (Terminate(t, e.client.value, e.command, answer), true) else (t, true)
  }

  function Without(selections: map<Key, Selection>, c: Client): map<Key, Selection> {
    map k | k in selections && selections[k].client != c :: selections[k]
  }

  function Orphaned(executions: map<Key, Execution>, c: Client): (r: map<Key, Execution>)
    ensures r.Keys == executions.Keys
  {
    map k | k in executions ::
      if executions[k].client == Some(c) then Execution(None, executions[k].command) else executions[k]
  }

  // `_on_close`.
  function Close(s: State, c: Client): State {
    Noted(s.(selections := Without(s.selections, c), executions := Orphaned(s.executions, c),
             connected := s.connected - {c}), Gone(c))
  }

  // --- events ------------------------------------------------------------------------------

  datatype Event =
    | Connects(client: Client)
    | ReadsSbo(client: Client, key: Key, m: CtlModel, now: int, timeout: nat)
    | WritesSbow(client: Client, key: Key, m: CtlModel, now: int, timeout: nat, check: Option<int>)
    | WritesCancel(client: Client, key: Key, m: CtlModel, now: int)
    | WritesOper(client: Client, key: Key, m: CtlModel, oper: Oper)
    | Runs(i: nat, answer: Answer)
    | Finishes(key: Key, answer: Answer)
    | Closes(client: Client)

  function Step(s: State, e: Event): State {
    match e
    case Connects(c) => s.(connected := s.connected + {c})
    case ReadsSbo(c, key, m, now, timeout) => ReadSbo(s, c, key, m, now, timeout).0
    case WritesSbow(c, key, m, now, timeout, check) => SelectWithValue(s, c, key, m, now, timeout, check).0
    case WritesCancel(c, key, m, now) => Cancel(s, c, key, m, now).0
    case WritesOper(c, key, m, oper) => Operate(s, c, key, m, oper).0
    case Runs(i, answer) => if i < |s.pending| then RunPending(s, i, answer) else s
    case Finishes(key, answer) => Finish(s, key, answer).0
    case Closes(c) => Close(s, c)
  }

  // Nothing is left to do for the command in execution: its handler has answered that it
  // ends later.
  predicate HandlerAnswered(s: State, key: Key) {
    key in s.executions ==> forall i :: 0 <= i < |s.pending| ==> s.pending[i].command != s.executions[key].command
  }

  // Requests come from connected clients, a client that is gone is not seen again, and the
  // application finishes a command only when its handler said so.
  predicate Possible(s: State, e: Event) {
    match e
    case Connects(c) => forall i :: 0 <= i < |s.log| ==> s.log[i] != Gone(c)
    case ReadsSbo(c, _, _, _, _) => c in s.connected
    case WritesSbow(c, _, _, _, _, _) => c in s.connected
    case WritesCancel(c, _, _, _) => c in s.connected
    case WritesOper(c, _, _, _) => c in s.connected
    case Runs(_, _) => true
    case Finishes(key, a) => HandlerAnswered(s, key) && !a.InExecution?
    case Closes(c) => c in s.connected
  }
}
