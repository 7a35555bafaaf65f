/** The editing phase before a send: member lists as a map from user to the last effective wish. */
module Editing {
  import opened Wrappers
  import opened Registers
  import opened ChangeSets
  import opened GroupProtocol
  import opened GroupRuns

  datatype Wish = ToAdd | ToRemove

  /** The simple form of a group's edits: at most one wish per user, the latest. */
  type Wishes = map<UserId, Wish>

  function Wished(m: Wishes, e: Edit): Wishes {
    match e
    case AddUser(u) => m[u := ToAdd]
    case RemoveUser(u, _) => m[u := ToRemove]
    case UndoAddUser(u) => if u in m && m[u] == ToAdd then m - {u} else m
    case UndoRemoveUser(u) => if u in m && m[u] == ToRemove then m - {u} else m
    case _ => m
  }

  /** One call on the wishes of group g; calls that report an error have no effect. */
  function WishedBy(d: Device, m: Wishes, e: Event, g: GroupId): Wishes {
    match e
    case Editing(h, edit) => if h == g && EditCode(d, g, edit) == Success then Wished(m, edit) else m
    case Cancelling(h) => if h == g && g != "" then map[] else m
    case Creating(h, _) => if h == g then m[d.user := ToAdd] else m
    case _ => m
  }

  ghost function WishesAfter(d: Device, m: Wishes, es: seq<Event>, g: GroupId): Wishes {
    if es == [] then m
    else WishedBy(Run(d, es[..|es| - 1]), WishesAfter(d, m, es[..|es| - 1], g), es[|es| - 1], g)
  }

  function CurrentSet(d: Device, g: GroupId): ChangeSet {
    if g in d.current then d.current[g] else EMPTY_SET
  }

  /** The two lists have no repeats, no user in common, and hold exactly the wishes. */
  ghost predicate Represents(cs: ChangeSet, m: Wishes) {
    && Distinct(cs.AddNames()) && Distinct(cs.RmNames())
    && Elements(cs.AddNames()) == (set u | u in m && m[u] == ToAdd)
    && Elements(cs.RmNames()) == (set u | u in m && m[u] == ToRemove)
  }

  /** The same for the bare lists. */
  ghost predicate Holds(add: seq<UserId>, rm: seq<UserId>, m: Wishes) {
    && Distinct(add) && Distinct(rm)
    && (forall u :: u in add <==> u in m && m[u] == ToAdd)
    && (forall u :: u in rm <==> u in m && m[u] == ToRemove)
  }

  lemma RepresentsIsHolds(cs: ChangeSet, m: Wishes)
    ensures Represents(cs, m) <==> Holds(cs.AddNames(), cs.RmNames(), m)
  {
    assert forall u :: u in cs.AddNames() <==> u in Elements(cs.AddNames());
    assert forall u :: u in cs.RmNames() <==> u in Elements(cs.RmNames());
  }

  /** Appending a name to one list and deleting it from the other. */
  lemma MovedToAdd(add: seq<UserId>, rm: seq<UserId>, m: Wishes, u: UserId)
    requires Holds(add, rm, m)
    ensures Holds(Appended(add, u), SwapRemoved(rm, u), m[u := ToAdd])
  {
    AppendedMembers(add, u);
    RemovedMembers(rm, u);
    var longer, shorter := Appended(add, u), SwapRemoved(rm, u);
    assert Distinct(longer) && Distinct(shorter);
    assert forall x :: x in longer <==> x == u || (x in m && m[x] == ToAdd);
    assert forall x :: x in shorter <==> x != u && x in m && m[x] == ToRemove;
  }

  lemma MovedToRemove(add: seq<UserId>, rm: seq<UserId>, m: Wishes, u: UserId)
    requires Holds(add, rm, m)
    ensures Holds(SwapRemoved(add, u), Appended(rm, u), m[u := ToRemove])
  {
    AppendedMembers(rm, u);
    RemovedMembers(add, u);
    var longer, shorter := Appended(rm, u), SwapRemoved(add, u);
    assert Distinct(longer) && Distinct(shorter);
    assert forall x :: x in longer <==> x == u || (x in m && m[x] == ToRemove);
    assert forall x :: x in shorter <==> x != u && x in m && m[x] == ToAdd;
  }

  lemma Undone(add: seq<UserId>, rm: seq<UserId>, m: Wishes, u: UserId)
    requires Holds(add, rm, m)
    ensures Holds(SwapRemoved(add, u), rm, Wished(m, UndoAddUser(u)))
    ensures Holds(add, SwapRemoved(rm, u), Wished(m, UndoRemoveUser(u)))
  {
    RemovedMembers(add, u);
    RemovedMembers(rm, u);
    var fewerAdds, fewerRms := SwapRemoved(add, u), SwapRemoved(rm, u);
    assert Distinct(fewerAdds) && Distinct(fewerRms);
    assert forall x :: x in fewerAdds <==> x != u && x in m && m[x] == ToAdd;
    assert forall x :: x in fewerRms <==> x != u && x in m && m[x] == ToRemove;
  }

  lemma AppendedMembers(names: seq<UserId>, u: UserId)
    requires Distinct(names)
    ensures Distinct(Appended(names, u)) && forall x :: x in Appended(names, u) <==> x == u || x in names
  {
  }

  lemma RemovedMembers(names: seq<UserId>, u: UserId)
    requires Distinct(names)
    ensures Distinct(SwapRemoved(names, u)) && forall x :: x in SwapRemoved(names, u) <==> x != u && x in names
  {
    SwapRemovedMeaning(names, u);
    forall x
      ensures x in SwapRemoved(names, u) <==> x != u && x in names
    {
      assert x in SwapRemoved(names, u) <==> x in Elements(SwapRemoved(names, u));
      assert x in names <==> x in Elements(names);
    }
  }

  lemma EditRepresents(cs: ChangeSet, m: Wishes, e: Edit, own: UserId)
    requires Represents(cs, m)
    ensures Represents(EditSet(cs, e, own), Wished(m, e))
  {
    var add, rm, after := cs.AddNames(), cs.RmNames(), EditSet(cs, e, own);
    RepresentsIsHolds(cs, m);
    RepresentsIsHolds(after, Wished(m, e));
    match e {
      case AddUser(u) =>
        MovedToAdd(add, rm, m, u);
        EditedLists(cs, u, own);
      case RemoveUser(u, _) =>
        MovedToRemove(add, rm, m, u);
        EditedLists(cs, u, own);
      case UndoAddUser(u) =>
        Undone(add, rm, m, u);
        EditedLists(cs, u, own);
      case UndoRemoveUser(u) =>
        Undone(add, rm, m, u);
        EditedLists(cs, u, own);
      case _ =>
        assert after.AddNames() == add && after.RmNames() == rm;
    }
  }

  lemma EditedLists(cs: ChangeSet, u: UserId, own: UserId)
    ensures EditSet(cs, AddUser(u), own).AddNames() == Appended(cs.AddNames(), u)
    ensures EditSet(cs, AddUser(u), own).RmNames() == SwapRemoved(cs.RmNames(), u)
    ensures forall b :: EditSet(cs, RemoveUser(u, b), own).AddNames() == SwapRemoved(cs.AddNames(), u)
    ensures forall b :: EditSet(cs, RemoveUser(u, b), own).RmNames() == Appended(cs.RmNames(), u)
    ensures EditSet(cs, UndoAddUser(u), own).AddNames() == SwapRemoved(cs.AddNames(), u)
    ensures EditSet(cs, UndoAddUser(u), own).RmNames() == cs.RmNames()
    ensures EditSet(cs, UndoRemoveUser(u), own).AddNames() == cs.AddNames()
    ensures EditSet(cs, UndoRemoveUser(u), own).RmNames() == SwapRemoved(cs.RmNames(), u)
  {
  }

  lemma StepRepresents(d: Device, m: Wishes, e: Event, g: GroupId)
    requires IsEdit(e) && Represents(CurrentSet(d, g), m)
    ensures Represents(CurrentSet(Step(d, e), g), WishedBy(d, m, e, g))
  {
    match e {
      case Editing(h, edit) => EditingRepresents(d, m, h, edit, g);
      case Cancelling(h) => CancellingRepresents(d, m, h, g);
      case Creating(h, name) => CreatingRepresents(d, m, h, name, g);
    }
  }

  lemma EditingRepresents(d: Device, m: Wishes, h: GroupId, edit: Edit, g: GroupId)
    requires Represents(CurrentSet(d, g), m)
    ensures Represents(CurrentSet(Step(d, Editing(h, edit)), g), WishedBy(d, m, Editing(h, edit), g))
  {
    if h == g && EditCode(d, g, edit) == Success {
      EditRepresents(CurrentSet(d, g), m, edit, d.user);
      assert CurrentSet(Edited(d, h, edit), g) == EditSet(CurrentSet(d, g), edit, d.user);
    } else {
      assert CurrentSet(Edited(d, h, edit), g) == CurrentSet(d, g);
    }
  }

  lemma CancellingRepresents(d: Device, m: Wishes, h: GroupId, g: GroupId)
    requires Represents(CurrentSet(d, g), m)
    ensures Represents(CurrentSet(Step(d, Cancelling(h)), g), WishedBy(d, m, Cancelling(h), g))
  {
  }

  lemma CreatingRepresents(d: Device, m: Wishes, h: GroupId, name: string, g: GroupId)
    requires Represents(CurrentSet(d, g), m)
    ensures Represents(CurrentSet(Step(d, Creating(h, name)), g), WishedBy(d, m, Creating(h, name), g))
  {
    CreatedLists(d, h, name, g);
    if h == g {
      EditRepresents(CurrentSet(d, g), m, AddUser(d.user), d.user);
    }
  }

  lemma CreatedLists(d: Device, h: GroupId, name: string, g: GroupId)
    ensures var cs := CurrentSet(GroupCreated(d, h, name), g);
            var made := if h == g then EditSet(CurrentSet(d, g), AddUser(d.user), d.user) else CurrentSet(d, g);
            cs.AddNames() == made.AddNames() && cs.RmNames() == made.RmNames()
  {
  }

  /**
   * Over every sequence of edits before a send, of this group and others, the add and remove lists stay free of
   * repeats and disjoint, and as sets they are the map in which the last effective call for a user wins.
   */
  lemma {:induction false} EditsRefineWishes(d: Device, m: Wishes, es: seq<Event>, g: GroupId)
    requires Represents(CurrentSet(d, g), m)
    requires forall e <- es :: IsEdit(e)
    ensures Represents(CurrentSet(Run(d, es), g), WishesAfter(d, m, es, g))
    ensures Elements(CurrentSet(Run(d, es), g).AddNames()) !! Elements(CurrentSet(Run(d, es), g).RmNames())
  {
    if es != [] {
      var init, e := es[..|es| - 1], es[|es| - 1];
      assert es == init + [e];
      EditsRefineWishes(d, m, init, g);
      StepRepresents(Run(d, init), WishesAfter(d, m, init, g), e, g);
    }
  }

  // ---------- Error codes ----------

  /** The edit names no user, or no message. */
  predicate NamesNothing(e: Edit) {
    match e
    case AddUser(u) => u == ""
    case RemoveUser(u, _) => u == ""
    case UndoAddUser(u) => u == ""
    case UndoRemoveUser(u) => u == ""
    case BurnGroupMessages(ids) => ids == []
    case SetMeta(_, _) => false
  }

  /** Adding or removing oneself, the latter unless allowed, and any burn mode but the one supported. */
  ghost predicate IsForbidden(e: Edit, own: UserId) {
    || e == AddUser(own) || e == RemoveUser(own, false)
    || (e.SetMeta? && e.t == SetBurn && !(exists seconds: nat :: e.value == Some(BurnTime(seconds, 1))))
  }

  /**
   * An edit fails with the first check that applies: something is missing, then forbidden, then the group is neither
   * edited nor there. A failed edit changes nothing, any other the group's set only.
   */
  lemma EditOutcome(d: Device, g: GroupId, e: Edit)
    ensures EditCode(d, g, e) ==
            if g == "" || NamesNothing(e) then DataMissing
            else if IsForbidden(e, d.user) then IllegalArgument
            else if g !in d.current && g !in d.groups then NoSuchActiveGroup
            else Success
    ensures var after := Step(d, Editing(g, e));
            if EditCode(d, g, e) != Success then after == d
            else g in after.current && after.current - {g} == d.current - {g} && after == d.(current := after.current)
  {
    EditChecks(g, e, d.user);
    OnlyThisSetEdited(d, g, e);
  }

  lemma EditChecks(g: GroupId, e: Edit, own: UserId)
    ensures ArgumentCode(g, e, own) ==
            if g == "" || NamesNothing(e) then DataMissing else if IsForbidden(e, own) then IllegalArgument else Success
  {
    if e.SetMeta? && e.value.Some? && e.value.value.BurnTime? {
      assert e.value == Some(BurnTime(e.value.value.seconds, e.value.value.mode));
    }
  }

  lemma OnlyThisSetEdited(d: Device, g: GroupId, e: Edit)
    ensures var after := Step(d, Editing(g, e));
            if EditCode(d, g, e) != Success then after == d
            else g in after.current && after.current - {g} == d.current - {g} && after == d.(current := after.current)
  {
  }

  // ---------- Name, avatar, burn time and burnt messages ----------

  /** The value of one type that was set last, if it was not taken back or the set cancelled. */
  function WantedBy(d: Device, value: Option<Payload>, e: Event, g: GroupId, t: MetaType): Option<Payload> {
    match e
    case Editing(h, SetMeta(s, v)) => if h == g && s == t && EditCode(d, g, e.e) == Success then v else value
    case Cancelling(h) => if h == g && g != "" then None else value
    case Creating(h, name) => if h == g && t == SetName && name != "" then Some(Text(name)) else value
    case _ => value
  }

  ghost function Wanted(d: Device, value: Option<Payload>, es: seq<Event>, g: GroupId, t: MetaType): Option<Payload> {
    if es == [] then value
    else WantedBy(Run(d, es[..|es| - 1]), Wanted(d, value, es[..|es| - 1], g, t), es[|es| - 1], g, t)
  }

  /** All messages that were named for burning, in order. */
  function BurntBy(d: Device, ids: seq<string>, e: Event, g: GroupId): seq<string> {
    match e
    case Editing(h, BurnGroupMessages(more)) => if h == g && EditCode(d, g, e.e) == Success then ids + more else ids
    case Cancelling(h) => if h == g && g != "" then [] else ids
    case _ => ids
  }

  ghost function Burnt(d: Device, ids: seq<string>, es: seq<Event>, g: GroupId): seq<string> {
    if es == [] then ids
    else BurntBy(Run(d, es[..|es| - 1]), Burnt(d, ids, es[..|es| - 1], g), es[|es| - 1], g)
  }

  function ValueIn(cs: ChangeSet, t: MetaType): Option<Payload> {
    if cs.Meta(t).Some? then Some(cs.Meta(t).value.value) else None
  }

  function BurntIn(cs: ChangeSet): seq<string> {
    if cs.burnMessage.Some? then cs.burnMessage.value.msgIds else []
  }

  /** Burnt messages are this user's. */
  predicate BurntByOwn(cs: ChangeSet, own: UserId) {
    cs.burnMessage.Some? ==> cs.burnMessage.value.member == own
  }

  /**
   * Over every sequence of edits before a send, the set holds for each of name, avatar and burn time the value that was
   * set last, and all messages named for burning in order, as this user's.
   */
  lemma {:induction false} SettingsFollowEdits(d: Device, es: seq<Event>, g: GroupId, t: MetaType)
    requires forall e <- es :: IsEdit(e)
    requires BurntByOwn(CurrentSet(d, g), d.user)
    ensures var cs := CurrentSet(Run(d, es), g);
            && ValueIn(cs, t) == Wanted(d, ValueIn(CurrentSet(d, g), t), es, g, t)
            && BurntIn(cs) == Burnt(d, BurntIn(CurrentSet(d, g)), es, g)
            && BurntByOwn(cs, d.user)
    ensures Run(d, es).user == d.user
  {
    if es != [] {
      SettingsFollowEdits(d, es[..|es| - 1], g, t);
      StepFollows(Run(d, es[..|es| - 1]), es[|es| - 1], g, t);
    }
  }

  lemma StepFollows(d: Device, e: Event, g: GroupId, t: MetaType)
    requires IsEdit(e) && BurntByOwn(CurrentSet(d, g), d.user)
    ensures var cs := CurrentSet(Step(d, e), g);
            && ValueIn(cs, t) == WantedBy(d, ValueIn(CurrentSet(d, g), t), e, g, t)
            && BurntIn(cs) == BurntBy(d, BurntIn(CurrentSet(d, g)), e, g)
            && BurntByOwn(cs, d.user)
    ensures Step(d, e).user == d.user
  {
    EditFrame(d, e);
    match e {
      case Editing(h, edit) =>
        EditingFollows(d, h, edit, g, t);
      case Cancelling(h) =>
        CancellingFollows(d, h, g);
      case Creating(h, name) =>
        CreatingFollows(d, h, name, g, t);
    }
  }

  lemma EditingFollows(d: Device, h: GroupId, edit: Edit, g: GroupId, t: MetaType)
    requires BurntByOwn(CurrentSet(d, g), d.user)
    ensures var cs, e := CurrentSet(Edited(d, h, edit), g), Editing(h, edit);
            && ValueIn(cs, t) == WantedBy(d, ValueIn(CurrentSet(d, g), t), e, g, t)
            && BurntIn(cs) == BurntBy(d, BurntIn(CurrentSet(d, g)), e, g)
            && BurntByOwn(cs, d.user)
  {
    if h == g && EditCode(d, g, edit) == Success {
      EditFollows(CurrentSet(d, g), edit, d.user, t);
      assert CurrentSet(Edited(d, h, edit), g) == EditSet(CurrentSet(d, g), edit, d.user);
    } else {
      assert CurrentSet(Edited(d, h, edit), g) == CurrentSet(d, g);
    }
  }

  lemma CancellingFollows(d: Device, h: GroupId, g: GroupId)
    ensures CurrentSet(Cancelled(d, h), g) == if h == g && g != "" then EMPTY_SET else CurrentSet(d, g)
  {
  }

  lemma EditFollows(cs: ChangeSet, edit: Edit, own: UserId, t: MetaType)
    requires BurntByOwn(cs, own)
    ensures var after := EditSet(cs, edit, own);
            && ValueIn(after, t) == (if edit.SetMeta? && edit.t == t then edit.value else ValueIn(cs, t))
            && BurntIn(after) == (if edit.BurnGroupMessages? then BurntIn(cs) + edit.msgIds else BurntIn(cs))
            && BurntByOwn(after, own)
  {
  }

  lemma CreatingFollows(d: Device, h: GroupId, name: string, g: GroupId, t: MetaType)
    requires BurntByOwn(CurrentSet(d, g), d.user)
    ensures var cs := CurrentSet(GroupCreated(d, h, name), g);
            && ValueIn(cs, t) == (if h == g && t == SetName && name != "" then Some(Text(name))
                                  else ValueIn(CurrentSet(d, g), t))
            && BurntIn(cs) == BurntIn(CurrentSet(d, g)) && BurntByOwn(cs, d.user)
  {
    CreatedSet(d, h, name, g);
    if h == g {
      var added := EditSet(CurrentSet(d, g), AddUser(d.user), d.user);
      EditFollows(CurrentSet(d, g), AddUser(d.user), d.user, t);
      EditFollows(added, SetMeta(SetName, Some(Text(name))), d.user, t);
    }
  }

  /** Creating a group adds its user, and sets the name if there is one. */
  lemma CreatedSet(d: Device, h: GroupId, name: string, g: GroupId)
    ensures CurrentSet(GroupCreated(d, h, name), g) ==
            if h != g then CurrentSet(d, g)
            else
              var added := EditSet(CurrentSet(d, g), AddUser(d.user), d.user);
              if name == "" then added else EditSet(added, SetMeta(SetName, Some(Text(name))), d.user)
  {
  }
}
