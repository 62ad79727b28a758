/**
 What each write to a setting group control block comes to (`server/settings.py`): when it is
 granted, what it changes, and what it leaves alone.
 */
module SettingRequests {
  import opened Octets
  import opened Data
  import opened Settings

  // Client `c` may write FC SE and confirm at `t`.
  predicate Edits(b: Block, c: Client, t: int) {
    b.editor == Some(c) && t < b.until
  }

  ghost predicate EditedByOther(b: Block, c: Client, t: int) {
    exists d :: d != c && Edits(b, d, t)
  }

  // From `now` on, the same client may.
  ghost predicate SameEditor(b: Block, r: Block, now: int) {
    forall c, t: int :: t >= now ==> (Edits(r, c, t) <==> Edits(b, c, t))
  }

  // The active group and what is stored and shown of it.
  predicate SameActive(b: Block, r: Block) {
    r.actSG == b.actSG && r.lActTm == b.lActTm && r.sg == b.sg && r.groups == b.groups
  }

  function Answered(b: Block, e: Event): Answer
    requires Typed(b)
  {
    match e
    case ActSG(_, value, now, refused) => WriteActive(Expire(b, now), value, now, refused).1
    case EditSG(c, value, now, refused) => WriteEdit(Expire(b, now), c, value, now, refused).1
    case CnfEdit(c, value, now, refused) => WriteConfirm(Expire(b, now), c, value, refused).1
    case SE(c, key, value, now) => WriteSe(Expire(b, now), c, key, value).1
    case _ => Done
  }

  // SG shows a group: each of its settings that has a leaf.
  predicate Shows(b: Block, g: nat) {
    g in b.groups && forall k :: k in b.sg && k in b.groups[g] ==> b.sg[k] == b.groups[g][k]
  }

  // --- ActSG -------------------------------------------------------------------------------

  // A write of ActSG is granted for a group there is, if it is active already or the
  // application agrees.
  predicate MayActivate(b: Block, value: Option<int>, refused: Option<int>) {
    value.Some? && 1 <= value.value <= b.count && (value.value == b.actSG || refused.None?)
  }

  // Then the group is active and SG shows it; else the active group, its values and its time
  // stay. The edit under way is not touched.
  lemma Activating(b: Block, c: Client, value: Option<int>, now: int, refused: Option<int>)
    requires Inv(b)
    ensures var e := ActSG(c, value, now, refused);
            var r := Step(b, e);
            && (Answered(b, e).Done? <==> MayActivate(b, value, refused))
            && (Answered(b, e).TypeInconsistent? <==> value.None?)
            && (Answered(b, e).ValueInvalid? <==> value.Some? && !(1 <= value.value <= b.count))
            && (Answered(b, e).Refused? ==> refused == Some(Answered(b, e).code))
            && (Answered(b, e).Done? ==>
                  && r.actSG == value.value && Shows(r, r.actSG)
                  && r.lActTm == (if value.value == b.actSG then b.lActTm else now))
            && (!Answered(b, e).Done? || value.value == b.actSG ==> SameActive(b, r))
            && r.groups == b.groups && r.se == b.se && r.sg.Keys == b.sg.Keys && SameEditor(b, r, now)
            && (forall k :: k in b.sg && (r.actSG !in b.groups || k !in b.groups[r.actSG]) ==> r.sg[k] == b.sg[k])
  {
  }

  // The application chooses the group itself.
  lemma Selecting(b: Block, group: nat, now: int)
    requires Inv(b)
    ensures var r := Step(b, Selects(group, now));
            if 1 <= group <= b.count then
              && r.actSG == group && Shows(r, group) && r.lActTm == (if group == b.actSG then b.lActTm else now)
              && r == b.(actSG := r.actSG, sg := r.sg, lActTm := r.lActTm) && (group == b.actSG ==> r == b)
            else r == b
  {
  }

  // The group that the events made active last.
  function LastActive(b: Block, es: seq<Event>): nat
    requires Typed(b)
  {
    if es == [] then b.actSG
    else
      var before := LastActive(b, es[..|es| - 1]);
      match es[|es| - 1]
      case ActSG(_, value, _, _) =>
        if Answered(Run(b, es[..|es| - 1]), es[|es| - 1]).Done? && value.Some? && value.value >= 0 then value.value
        else before
      case Selects(group, _) => if 1 <= group <= b.count then group else before
      case _ => before
  }

  lemma OthersKeepActive(b: Block, e: Event)
    requires Inv(b) && !e.ActSG? && !e.Selects?
    ensures Step(b, e).actSG == b.actSG && Step(b, e).lActTm == b.lActTm
  {
  }

  lemma CountStays(b: Block, e: Event)
    requires Typed(b)
    ensures Step(b, e).count == b.count && Step(b, e).reservation == b.reservation
  {
  }

  // Over any run ActSG is the group last granted or chosen, and SG shows it.
  lemma {:induction false} ActiveOverRuns(b: Block, es: seq<Event>)
    requires Inv(b)
    ensures var r := Run(b, es); r.actSG == LastActive(b, es) && Shows(r, r.actSG) && r.count == b.count
  {
    RunInv(b, es);
    hide Step, Answered;
    if es != [] {
      var most, e := es[..|es| - 1], es[|es| - 1];
      RunInv(b, most);
      ActiveOverRuns(b, most);
      CountStays(Run(b, most), e);
      match e
      case ActSG(c, value, now, refused) => Activating(Run(b, most), c, value, now, refused);
      case Selects(group, now) => Selecting(Run(b, most), group, now);
      case _ => OthersKeepActive(Run(b, most), e);
    }
  }

  // --- EditSG ------------------------------------------------------------------------------

  lemma EditorIsOne(b: Block, c: Client, now: int)
    ensures EditedByOther(b, c, now) <==> b.editor.Some? && b.editor.value != c && now < b.until
  {
    if b.editor.Some? && b.editor.value != c && now < b.until {
      assert Edits(b, b.editor.value, now);
    }
  }

  // A write of EditSG is granted to a client while nobody else edits: 0 ends its edit, and a
  // group there is, if the application agrees, begins one.
  ghost predicate MayEdit(b: Block, c: Client, value: Option<int>, now: int, refused: Option<int>) {
    && value.Some? && !EditedByOther(b, c, now)
    && (value.value == 0 || (1 <= value.value <= b.count && refused.None?))
  }

  // An edit begun gives the client alone SE, for the time of the reservation, with the values
  // of the group. No write of EditSG changes a group or what is active.
  lemma Editing(b: Block, c: Client, value: Option<int>, now: int, refused: Option<int>)
    requires Inv(b)
    ensures var e := EditSG(c, value, now, refused);
            var r := Step(b, e);
            && (Answered(b, e).Done? <==> MayEdit(b, c, value, now, refused))
            && (Answered(b, e).Refused? ==> refused == Some(Answered(b, e).code))
            && (Answered(b, e).TypeInconsistent? <==> value.None?)
            && (Answered(b, e).Unavailable? <==> value.Some? && EditedByOther(b, c, now))
            && (Answered(b, e).ValueInvalid? <==>
                  value.Some? && !EditedByOther(b, c, now) && !(0 <= value.value <= b.count))
            && SameActive(b, r)
            && (!Answered(b, e).Done? ==> SameEditor(b, r, now) && r.se == b.se)
            && (Answered(b, e).Done? && value.value == 0 ==>
                  && (forall d, t: int :: t >= now ==> !Edits(r, d, t)) && r.editSG == 0 && r.resvTms == 0 && r.se == b.se)
            && (Answered(b, e).Done? && value.value != 0 ==>
                  && (forall d, t: int :: Edits(r, d, t) <==> d == c && t < now + b.reservation)
                  && r.editSG == value.value && r.resvTms == b.reservation && r.se.Keys == b.se.Keys
                  && forall k :: k in b.se ==>
                       r.se[k] == if k in b.groups[r.editSG] then b.groups[r.editSG][k] else b.se[k])
  {
    EditorIsOne(b, c, now);
  }

  // --- SE, CnfEdit, and the end of an edit -------------------------------------------------

  // Only who edits writes SE, one leaf at a time.
  lemma Writing(b: Block, c: Client, key: Key, value: Value, now: int)
    requires Inv(b)
    ensures var e := SE(c, key, value, now);
            var r := Step(b, e);
            && (Answered(b, e).Done? <==> Edits(b, c, now) && key in b.se)
            && (Answered(b, e).Unavailable? <==> !Edits(b, c, now))
            && r.se == (if Answered(b, e).Done? then b.se[key := value] else b.se)
            && SameActive(b, r) && SameEditor(b, r, now)
  {
  }

  // Only who edits confirms. The group gets SE's values for the settings it has, SG follows if
  // it is active, and the edit is over; a write that is not granted changes no value.
  lemma Confirming(b: Block, c: Client, value: Option<bool>, now: int, refused: Option<int>)
    requires Inv(b)
    ensures var e := CnfEdit(c, value, now, refused);
            var r := Step(b, e);
            && (Answered(b, e).Done? <==> value == Some(true) && Edits(b, c, now) && refused.None?)
            && (Answered(b, e).Refused? ==> refused == Some(Answered(b, e).code))
            && (Answered(b, e).TypeInconsistent? <==> value.None?)
            && (Answered(b, e).ValueInvalid? <==> value == Some(false))
            && (Answered(b, e).Denied? <==> value == Some(true) && !Edits(b, c, now))
            && r.actSG == b.actSG && r.lActTm == b.lActTm && r.se == b.se
            && (!Answered(b, e).Done? ==> SameActive(b, r) && SameEditor(b, r, now))
            && (Answered(b, e).Done? ==>
                  && (forall d, t: int :: !Edits(r, d, t)) && r.editSG == 0 && r.groups.Keys == b.groups.Keys
                  && (forall g :: g in b.groups && g != b.editSG ==> r.groups[g] == b.groups[g])
                  && b.editSG in b.groups && r.groups[b.editSG].Keys == b.groups[b.editSG].Keys
                  && (forall k :: k in b.groups[b.editSG] ==>
                        r.groups[b.editSG][k] == if k in b.se then b.se[k] else b.groups[b.editSG][k])
                  && Shows(r, r.actSG) && (b.editSG != b.actSG ==> r.sg == b.sg))
  {
  }

  // The edit of a client that goes is over; nothing else happens to the block.
  lemma Leaving(b: Block, c: Client)
    requires Inv(b)
    ensures var r := Step(b, Closes(c));
            && (forall d, t: int :: Edits(r, d, t) <==> d != c && Edits(b, d, t))
            && (b.editor == Some(c) ==> r.editSG == 0 && r.resvTms == 0) && (b.editor != Some(c) ==> r == b)
            && SameActive(b, r) && r.se == b.se
  {
  }

  // A read shows an edit that has lapsed as over.
  lemma Reading(b: Block, now: int)
    requires Inv(b)
    ensures var r := Step(b, Reads(now));
            && SameEditor(b, r, now) && SameActive(b, r) && r.se == b.se
            && (r.editSG != 0 <==> exists c :: Edits(b, c, now)) && (r.editSG == 0 ==> r.resvTms == 0)
            && (r.editSG != 0 ==> r == b)
  {
    if b.editor.Some? && now < b.until {
      assert Edits(b, b.editor.value, now);
    }
  }

  // --- the application's values ------------------------------------------------------------

  // Values the application gives a group are all stored, or none when there is no such group
  // or setting; SG follows the active group, and nothing else changes.
  lemma Giving(b: Block, group: nat, values: Group)
    requires Inv(b)
    ensures var r := Step(b, Sets(group, values));
            if 1 <= group <= b.count && values.Keys <= b.sg.Keys then
              && r == b.(groups := r.groups, sg := r.sg) && r.groups.Keys == b.groups.Keys
              && (forall g :: g in b.groups && g != group ==> r.groups[g] == b.groups[g])
              && r.groups[group].Keys == b.groups[group].Keys + values.Keys
              && (forall k :: k in r.groups[group] ==>
                    r.groups[group][k] == if k in values then values[k] else b.groups[group][k])
              && Shows(r, r.actSG) && (group != b.actSG ==> r.sg == b.sg)
            else r == b
  {
  }
}
