/**
 Setting groups of the MMS server (`server/settings.py`, IEC 61850-7-2 clause 16): one
 setting group control block, its groups, and the edit of one of them by one client.
 `SettingEngine.dfy` holds the mutable block.
 */
module Settings {
  import opened Octets
  import opened Data

  type Client = nat

  type Key = string  // LN.DO.DA

  type Group = map<Key, Value>

  // The block: its attributes, who edits until when, the stored groups, and the leaves of
  // functional constraints SG and SE.
  datatype Block = Block(count: nat, reservation: nat, actSG: nat, lActTm: int, editSG: nat, resvTms: nat,
                         editor: Option<Client>, until: int, groups: map<nat, Group>, sg: Group, se: Group)

  // A group's values into the leaves that have one.
  function Load(leaves: Group, values: Group): (r: Group)
    ensures r.Keys == leaves.Keys
  {
    map k | k in leaves :: if k in values then values[k] else leaves[k]
  }

  predicate Typed(b: Block) {
    && (forall g :: g in b.groups ==> 1 <= g <= b.count) && (forall g: nat :: 1 <= g <= b.count ==> g in b.groups)
    && 1 <= b.actSG <= b.count && b.editSG <= b.count
  }

  // --- steps -------------------------------------------------------------------------------

  function Activate(b: Block, group: nat, now: int): Block
    requires group in b.groups
  {
    b.(actSG := group, lActTm := now, sg := Load(b.sg, b.groups[group]))
  }

  function Release(b: Block): Block {
    b.(editor := None, editSG := 0, resvTms := 0)
  }

  function Expire(b: Block, now: int): Block {
    if b.editor.Some? && now >= b.until then Release(b) else b
  }

  datatype Answer = Done | TypeInconsistent | ValueInvalid | Unavailable | Denied | Refused(code: int)

  function InRange(b: Block, group: int): bool {
    1 <= group <= b.count
  }

  // `_write_active`; `refused` is what the application's handler answers.
  function WriteActive(b: Block, value: Option<int>, now: int, refused: Option<int>): (r: (Block, Answer))
    requires Typed(b)
    ensures Typed(r.0)
  {
    if value.None? then (b, TypeInconsistent)
    else if !InRange(b, value.value) then (b, ValueInvalid)
    else if value.value == b.actSG then (b, Done)
    else if refused.Some? then (b, Refused(refused.value))
    else (Activate(b, value.value, now), Done)
  }

  function Opened(b: Block, c: Client, group: nat, now: int): Block
    requires group in b.groups
  {
    b.(editor := Some(c), until := now + b.reservation, editSG := group, resvTms := b.reservation,
       se := Load(b.se, b.groups[group]))
  }

  // `_write_edit`.
  function WriteEdit(b: Block, c: Client, value: Option<int>, now: int, refused: Option<int>): (r: (Block, Answer))
    requires Typed(b)
    ensures Typed(r.0)
  {
    if value.None? then (b, TypeInconsistent)
    else if b.editor.Some? && b.editor != Some(c) then (b, Unavailable)
    else if value.value == 0 then (Release(b), Done)
    else if !InRange(b, value.value) then (b, ValueInvalid)
    else if refused.Some? then (b, Refused(refused.value))
    else (Opened(b, c, value.value, now), Done)
  }

  // SE's values become the group's, for the settings it has.
  function Confirm(b: Block): (r: Block)
    requires Typed(b) && b.editSG in b.groups
    ensures Typed(r)
  {
    var groups := b.groups[b.editSG := Load(b.groups[b.editSG], b.se)];
    var sg := if b.editSG == b.actSG then Load(b.sg, groups[b.editSG]) else b.sg;
    Release(b.(groups := groups, sg := sg))
  }

  // `_write_confirm`.
  function WriteConfirm(b: Block, c: Client, value: Option<bool>, refused: Option<int>): (r: (Block, Answer))
    requires Typed(b)
    ensures Typed(r.0)
  {
    if value.None? then (b, TypeInconsistent)
    else if !value.value then (b, ValueInvalid)
    else if b.editSG == 0 || b.editor != Some(c) then (b, Denied)
    else if refused.Some? then (b, Refused(refused.value))
    else (Confirm(b), Done)
  }

  function WriteSe(b: Block, c: Client, key: Key, value: Value): (Block, Answer) {
    if b.editor != Some(c) then (b, Unavailable)
    else if key in b.se then (b.(se := b.se[key := value]), Done) else (b, Denied)
  }

  // `set_values` of the application, for settings the groups have.
  function SetValues(b: Block, group: nat, values: Group): (r: Block)
    requires Typed(b)
    ensures Typed(r)
  {
    if group !in b.groups || !(values.Keys <= b.sg.Keys) then b
    else
      var groups := b.groups[group := b.groups[group] + values];
      b.(groups := groups, sg := if group == b.actSG then Load(b.sg, groups[group]) else b.sg)
  }

  // `select_active` of the application.
  function SelectActive(b: Block, group: nat, now: int): Block
    requires Typed(b)
  {
    if group in b.groups && group != b.actSG then Activate(b, group, now) else b
  }

  datatype Event =
    | ActSG(client: Client, value: Option<int>, now: int, refused: Option<int>)
    | EditSG(client: Client, value: Option<int>, now: int, refused: Option<int>)
    | CnfEdit(client: Client, confirm: Option<bool>, now: int, refused: Option<int>)
    | SE(client: Client, key: Key, setting: Value, now: int)
    | Reads(now: int)
    | Closes(client: Client)
    | Sets(group: nat, values: Group)
    | Selects(group: nat, now: int)

  function Step(b: Block, e: Event): (r: Block)
    requires Typed(b)
    ensures Typed(r)
  {
    match e
    case ActSG(_, value, now, refused) => WriteActive(Expire(b, now), value, now, refused).0
    case EditSG(c, value, now, refused) => WriteEdit(Expire(b, now), c, value, now, refused).0
    case CnfEdit(c, value, now, refused) => WriteConfirm(Expire(b, now), c, value, refused).0
    case SE(c, key, value, now) => WriteSe(Expire(b, now), c, key, value).0
    case Reads(now) => Expire(b, now)
    case Closes(c) => if b.editor == Some(c) then Release(b) else b
    case Sets(group, values) => SetValues(b, group, values)
    case Selects(group, now) => SelectActive(b, group, now)
  }

  // --- what every step keeps ---------------------------------------------------------------

  // SG is the active group, and EditSG is non-zero exactly while a client edits.
  predicate Inv(b: Block) {
    && Typed(b)
    && (forall k :: k in b.sg && k in b.groups[b.actSG] ==> b.sg[k] == b.groups[b.actSG][k])
    && (b.editSG != 0 <==> b.editor.Some?)
    && (b.editor.None? ==> b.resvTms == 0)
  }

  lemma StepInv(b: Block, e: Event)
    requires Inv(b)
    ensures Inv(Step(b, e))
  {
  }

  function Run(b: Block, es: seq<Event>): (r: Block)
    requires Typed(b)
    ensures Typed(r)
  {
    if es == [] then b else Step(Run(b, es[..|es| - 1]), es[|es| - 1])
  }

  // In every reachable state SG equals the stored values of the active group, and EditSG is
  // non-zero exactly when one client holds the edit.
  lemma {:induction false} RunInv(b: Block, es: seq<Event>)
    requires Inv(b)
    ensures Inv(Run(b, es))
  {
    hide Step;
    if es != [] {
      RunInv(b, es[..|es| - 1]);
      StepInv(Run(b, es[..|es| - 1]), es[|es| - 1]);
    }
  }

  // --- edits -------------------------------------------------------------------------------

  // The editor confirms, and the application lets it.
  predicate Confirms(b: Block, e: Event) {
    e.CnfEdit? && b.editor == Some(e.client) && e.now < b.until && e.confirm == Some(true) && e.refused.None?
  }

  // Groups change by a confirmed edit and by the application alone: an edit ended by 0, by
  // its time or by the client going changes none.
  lemma OnlyConfirmsChange(b: Block, e: Event)
    requires Inv(b)
    ensures !Confirms(b, e) && !e.Sets? ==> Step(b, e).groups == b.groups
    ensures Confirms(b, e) ==> && b.editSG in b.groups && Step(b, e).editor.None?
                               && (forall g :: g in b.groups && g != b.editSG ==>
                                     g in Step(b, e).groups && Step(b, e).groups[g] == b.groups[g])
    ensures e.Sets? ==> forall g :: g in b.groups && g != e.group ==>
                          g in Step(b, e).groups && Step(b, e).groups[g] == b.groups[g]
  {
  }

  // What an event does at a time, if it looks at the clock.
  function TimeOf(e: Event): Option<int> {
    match e
    case ActSG(_, _, now, _) => Some(now)
    case EditSG(_, _, now, _) => Some(now)
    case CnfEdit(_, _, now, _) => Some(now)
    case SE(_, _, _, now) => Some(now)
    case Reads(now) => Some(now)
    case Closes(_) => None
    case Sets(_, _) => None
    case Selects(_, _) => None
  }

  // The edit of client `c` goes on through the event: it is neither over nor begun again.
  predicate GoesOn(b: Block, e: Event, c: Client) {
    && (TimeOf(e).Some? && !e.Selects? ==> TimeOf(e).value < b.until)
    && (e.Closes? ==> e.client != c)
    && (e.CnfEdit? && e.client == c ==> !Confirms(b, e))
    && (e.EditSG? && e.client == c && e.value.Some? ==>
          e.value.value != 0 && (!InRange(b, e.value.value) || e.refused.Some?))
  }

  ghost predicate AllGoOn(b: Block, es: seq<Event>, c: Client)
    requires Typed(b)
  {
    es == [] || (AllGoOn(b, es[..|es| - 1], c) && GoesOn(Run(b, es[..|es| - 1]), es[|es| - 1], c))
  }

  // Settings written over others, in order.
  function Overlay(values: Group, es: seq<Event>, c: Client): (r: Group)
    ensures r.Keys == values.Keys
  {
    if es == [] then values
    else
      var before := Overlay(values, es[..|es| - 1], c);
      var last := es[|es| - 1];
      if last.SE? && last.client == c && last.key in before then before[last.key := last.setting] else before
  }

  lemma EditStep(b: Block, e: Event, c: Client)
    requires Inv(b) && b.editor == Some(c) && GoesOn(b, e, c)
    ensures var r := Step(b, e);
            && r.editor == Some(c) && r.editSG == b.editSG && r.until == b.until
            && (forall g :: g in b.groups ==> g in r.groups && b.groups[g].Keys <= r.groups[g].Keys)
            && r.se == if e.SE? && e.client == c && e.key in b.se then b.se[e.key := e.setting] else b.se
  {
  }

  // While an edit goes on, SE holds what it was loaded with, overlaid with the editor's
  // writes: nobody else's, and whatever happens to the groups.
  lemma {:induction false} EditRun(b: Block, es: seq<Event>, c: Client)
    requires Inv(b) && b.editor == Some(c) && AllGoOn(b, es, c)
    ensures var r := Run(b, es);
            && r.editor == Some(c) && r.editSG == b.editSG && r.until == b.until && r.se == Overlay(b.se, es, c)
            && (forall g :: g in b.groups ==> g in r.groups && b.groups[g].Keys <= r.groups[g].Keys)
  {
    hide Step, GoesOn;
    if es != [] {
      var most := es[..|es| - 1];
      EditRun(b, most, c);
      RunInv(b, most);
      EditStep(Run(b, most), es[|es| - 1], c);
    }
  }

  lemma {:induction false} OverlayOf(leaves: Group, values: Group, es: seq<Event>, c: Client, k: Key)
    requires k in leaves && k in values
    requires leaves[k] == values[k]
    requires forall i :: 0 <= i < |es| && es[i].SE? && es[i].client == c && es[i].key == k ==> k in leaves
    ensures Overlay(leaves, es, c)[k] == Overlay(values, es, c)[k]
  {
    if es != [] {
      OverlayOf(leaves, values, es[..|es| - 1], c, k);
    }
  }

  predicate Selected(b: Block, c: Client, value: int, now: int) {
    (b.editor.None? || b.editor == Some(c) || now >= b.until) && InRange(b, value)
  }

  // A confirmed edit makes the group its values at SelectEditSG overlaid with the editor's
  // SE writes, in order, for each setting the group had then. A setting the application gave
  // the group since then gets what its SE leaf held before the edit, overlaid the same way;
  // a setting without an SE leaf is left alone.
  lemma EditConfirmed(b: Block, c: Client, group: int, now: int, es: seq<Event>, later: int, k: Key)
    requires Inv(b) && Selected(b, c, group, now)
    requires AllGoOn(Step(b, EditSG(c, Some(group), now, None)), es, c)
    requires later < now + b.reservation
    ensures var edited := Run(Step(b, EditSG(c, Some(group), now, None)), es);
            var r := Step(edited, CnfEdit(c, Some(true), later, None));
            && group in b.groups && group in edited.groups && group in r.groups
            && r.groups[group].Keys == edited.groups[group].Keys >= b.groups[group].Keys
            && (k in b.se && k in edited.groups[group] ==>
                  r.groups[group][k] == if k in b.groups[group] then Overlay(b.groups[group], es, c)[k]
                                        else Overlay(b.se, es, c)[k])
            && (k !in b.se && k in edited.groups[group] ==> r.groups[group][k] == edited.groups[group][k])
            && (group == b.actSG == edited.actSG && k in r.sg && k in r.groups[group] ==> r.sg[k] == r.groups[group][k])
  {
    var e := EditSG(c, Some(group), now, None);
    var s := Step(b, e);
    StepInv(b, e);
    Opens(b, c, group, now);
    EditRun(s, es, c);
    RunInv(s, es);
    StepInv(Run(s, es), CnfEdit(c, Some(true), later, None));
    if k in b.se {
      if k in b.groups[group] {
        OverlayOf(s.se, b.groups[group], es, c, k);
      } else {
        OverlayOf(s.se, b.se, es, c, k);
      }
    }
  }

  lemma Opens(b: Block, c: Client, group: int, now: int)
    requires Inv(b) && Selected(b, c, group, now)
    ensures var s := Step(b, EditSG(c, Some(group), now, None));
            && s.editor == Some(c) && s.editSG == group && s.until == now + b.reservation && s.groups == b.groups
            && group in b.groups && s.se == Load(b.se, b.groups[group])
  {
  }

  // The latter is not what the group held: a setting the application adds to a group under
  // edit is overwritten by whatever its SE leaf was left with.
  lemma StaleSetting(b: Block, c: Client, group: nat, k: Key, value: Value, now: int)
    requires Inv(b) && Selected(b, c, group, now) && b.reservation > 1
    requires group in b.groups && k in b.se && k in b.sg && k !in b.groups[group] && b.se[k] != value
    ensures var edited := Step(b, EditSG(c, Some(group), now, None));
            var given := Step(edited, Sets(group, map[k := value]));
            var r := Step(given, CnfEdit(c, Some(true), now + 1, None));
            && group in given.groups && k in given.groups[group] && given.groups[group][k] == value
            && group in r.groups && k in r.groups[group] && r.groups[group][k] == b.se[k]
  {
    hide Activate;
    var edited := Step(b, EditSG(c, Some(group), now, None));
    assert (map[k := value]).Keys <= edited.sg.Keys;
  }
}
