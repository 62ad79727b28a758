/**
 The mutable setting group control block of `server/settings.py`: attributes, groups and
 leaves changed in place, a leaf at a time, by methods that end in the states `Settings` says.
 */
module SettingEngine {
  import opened Octets
  import opened Data
  import opened Settings

  class Engine {
    const count: nat
    const reservation: nat
    var actSG: nat
    var lActTm: int
    var editSG: nat
    var resvTms: nat
    var editor: Option<Client>
    var until: int
    var groups: map<nat, Group>
    var sg: Group
    var se: Group

    ghost function Now(): Block
      reads this
    {
      Block(count, reservation, actSG, lActTm, editSG, resvTms, editor, until, groups, sg, se)
    }

    // What every reachable block keeps (see Settings).
    ghost predicate Valid()
      reads this
    {
      Inv(Now())
    }

    constructor (b: Block)
      requires Inv(b) && b.editor.None?
      ensures Now() == b && Valid()
    {
      count, reservation, actSG, lActTm := b.count, b.reservation, b.actSG, b.lActTm;
      editSG, resvTms, editor, until := b.editSG, b.resvTms, b.editor, b.until;
      groups, sg, se := b.groups, b.sg, b.se;
    }

    // `_load`: a group's values into leaves, one after the other.
    method LoadLeaves(leaves: Group, group: nat) returns (r: Group)
      requires group in groups
      ensures r == Load(leaves, groups[group])
    {
      r := leaves;
      var left := leaves.Keys;
      var values := groups[group];
      while left != {}
        invariant left <= leaves.Keys == r.Keys
        invariant forall k :: k in r ==> r[k] == if k !in left && k in values then values[k] else leaves[k]
        decreases |left|
      {
        var k :| k in left;
        if k in values {
          r := r[k := values[k]];
        }
        left := left - {k};
      }
    }

    method MakeActive(group: nat, now: int)
      requires group in groups
      modifies this
      ensures Now() == Activate(old(Now()), group, now)
    {
      actSG := group;
      lActTm := now;
      sg := LoadLeaves(sg, group);
    }

    method EndEdit()
      modifies this
      ensures Now() == Release(old(Now()))
    {
      editor := None;
      editSG := 0;
      resvTms := 0;
    }

    // `_expire`, before every read and write.
    method ExpireEdit(now: int)
      modifies this
      ensures Now() == Expire(old(Now()), now)
    {
      if editor.Some? && now >= until {
        EndEdit();
      }
    }

    method OnActive(c: Client, value: Option<int>, now: int, refused: Option<int>) returns (a: Answer)
      requires Valid()
      modifies this
      ensures Valid()
      ensures (Now(), a) == WriteActive(Expire(old(Now()), now), value, now, refused)
    {
      StepInv(Now(), ActSG(c, value, now, refused));
      hide Activate;
      ExpireEdit(now);
      if value.None? {
        return TypeInconsistent;
      }
      if !(1 <= value.value <= count) {
        return ValueInvalid;
      }
      if value.value == actSG {
        return Done;
      }
      if refused.Some? {
        return Refused(refused.value);
      }
      MakeActive(value.value, now);
      return Done;
    }

    // The client edits a group: SE becomes its values.
    method Open(c: Client, group: nat, now: int)
      requires group in groups
      modifies this
      ensures Now() == Opened(old(Now()), c, group, now)
    {
      hide Load;
      editor := Some(c);
      until := now + reservation;
      editSG := group;
      resvTms := reservation;
      se := LoadLeaves(se, group);
    }

    method OnEdit(c: Client, value: Option<int>, now: int, refused: Option<int>) returns (a: Answer)
      requires Valid()
      modifies this
      ensures Valid()
      ensures (Now(), a) == WriteEdit(Expire(old(Now()), now), c, value, now, refused)
    {
      hide Opened;
      StepInv(Now(), EditSG(c, value, now, refused));
      ExpireEdit(now);
      if value.None? {
        return TypeInconsistent;
      }
      if editor.Some? && editor != Some(c) {
        return Unavailable;
      }
      if value.value == 0 {
        EndEdit();
        return Done;
      }
      if !(1 <= value.value <= count) {
        return ValueInvalid;
      }
      if refused.Some? {
        return Refused(refused.value);
      }
      Open(c, value.value, now);
      return Done;
    }

    // The leaves' values into the group, one leaf after the other.
    method Store(group: nat)
      requires group in groups
      modifies `groups
      ensures groups == old(groups)[group := Load(old(groups)[group], se)]
    {
      var stored := groups[group];
      var left := se.Keys;
      while left != {}
        invariant left <= se.Keys && stored.Keys == old(groups)[group].Keys
        invariant forall k :: k in stored ==>
                    stored[k] == if k in se && k !in left then se[k] else old(groups)[group][k]
        decreases |left|
      {
        var k :| k in left;
        if k in stored {
          stored := stored[k := se[k]];
        }
        left := left - {k};
      }
      assert stored == Load(old(groups)[group], se);
      groups := groups[group := stored];
    }

    method OnConfirm(c: Client, value: Option<bool>, now: int, refused: Option<int>) returns (a: Answer)
      requires Valid()
      modifies this
      ensures Valid()
      ensures (Now(), a) == WriteConfirm(Expire(old(Now()), now), c, value, refused)
    {
      StepInv(Now(), CnfEdit(c, value, now, refused));
      hide Load;
      ExpireEdit(now);
      if value.None? {
        return TypeInconsistent;
      }
      if !value.value {
        return ValueInvalid;
      }
      if editSG == 0 || editor != Some(c) {
        return Denied;
      }
      if refused.Some? {
        return Refused(refused.value);
      }
      var group := editSG;
      Store(group);
      if group == actSG {
        sg := LoadLeaves(sg, group);
      }
      EndEdit();
      return Done;
    }

    // A write of FC SE: the hook, then the model's own write.
    method OnSe(c: Client, key: Key, value: Value, now: int) returns (a: Answer)
      requires Valid()
      modifies this
      ensures Valid()
      ensures (Now(), a) == WriteSe(Expire(old(Now()), now), c, key, value)
    {
      StepInv(Now(), SE(c, key, value, now));
      ExpireEdit(now);
      if editor != Some(c) {
        return Unavailable;
      }
      if key !in se {
        return Denied;
      }
      se := se[key := value];
      return Done;
    }

    method OnClose(c: Client)
      requires Valid()
      modifies this
      ensures Valid()
      ensures Now() == Step(old(Now()), Closes(c))
    {
      StepInv(Now(), Closes(c));
      if editor == Some(c) {
        EndEdit();
      }
    }

    // The application's own changes.
    method SetGroup(group: nat, values: Group)
      requires Valid()
      modifies this
      ensures Valid()
      ensures Now() == SetValues(old(Now()), group, values)
    {
      StepInv(Now(), Sets(group, values));
      hide Load;
      if group !in groups || !(values.Keys <= sg.Keys) {
        return;
      }
      groups := groups[group := groups[group] + values];
      if group == actSG {
        sg := LoadLeaves(sg, group);
      }
    }

    method ChooseActive(group: nat, now: int)
      requires Valid()
      modifies this
      ensures Valid()
      ensures Now() == SelectActive(old(Now()), group, now)
    {
      StepInv(Now(), Selects(group, now));
      hide Activate;
      if group in groups && group != actSG {
        MakeActive(group, now);
      }
    }
  }
}
