/** The change sets devices exchange, and the list edits that build them. */
module ChangeSets {
  import opened Wrappers
  import opened UpdateOrder
  import opened Registers

  type GroupId = string
  type UserId = string

  datatype UpdateType = SetName | SetAvatar | SetBurn | AddMember | RemoveMember | BurnMessage

  /** The three update types that carry a clock. */
  type MetaType = t: UpdateType | t == SetName || t == SetAvatar || t == SetBurn witness SetName

  /** The two that carry a list of members. */
  type ListType = t: UpdateType | t == AddMember || t == RemoveMember witness AddMember

  datatype Ack = Ack(typ: UpdateType, id: UpdateId, result: AckResult)

  datatype NameList = NameList(id: UpdateId, names: seq<UserId>)

  datatype BurnList = BurnList(id: UpdateId, msgIds: seq<string>, member: UserId)

  datatype ChangeSet = ChangeSet(
    name: Option<Update>, avatar: Option<Update>, burn: Option<Update>,
    add: Option<NameList>, rm: Option<NameList>, burnMessage: Option<BurnList>, acks: seq<Ack>)
  {
    function Meta(t: MetaType): Option<Update> {
      match t case SetName => name case SetAvatar => avatar case SetBurn => burn
    }

    function WithMeta(t: MetaType, u: Option<Update>): ChangeSet {
      match t
      case SetName => this.(name := u)
      case SetAvatar => this.(avatar := u)
      case SetBurn => this.(burn := u)
    }

    function List(t: ListType): Option<NameList> {
      match t case AddMember => add case RemoveMember => rm
    }

    function AddNames(): seq<UserId> {
      if add.Some? then add.value.names else []
    }

    function RmNames(): seq<UserId> {
      if rm.Some? then rm.value.names else []
    }

    predicate HasUpdates() {
      name.Some? || avatar.Some? || burn.Some? || add.Some? || rm.Some? || burnMessage.Some?
    }

    /** The set asks to remove exactly this one user. */
    predicate RemovesOnly(user: UserId) {
      RmNames() == [user]
    }

    predicate IsAckOnly() {
      !HasUpdates()
    }
  }

  const EMPTY_SET: ChangeSet := ChangeSet(None, None, None, None, None, None, [])

  predicate Distinct<T(==)>(s: seq<T>) {
    forall i, j :: 0 <= i < j < |s| ==> s[i] != s[j]
  }

  /** Position of the first occurrence, or the length if there is none. */
  function IndexOf(names: seq<UserId>, name: UserId): (i: nat)
    ensures i <= |names|
    ensures i < |names| ==> names[i] == name
    ensures name !in names[..i]
    ensures i < |names| <==> name in names
  {
    if names == [] || names[0] == name then 0 else 1 + IndexOf(names[1..], name)
  }

  /** Deletion by moving the last element into the gap. */
  function SwapRemoved(names: seq<UserId>, name: UserId): seq<UserId> {
    var i := IndexOf(names, name);
    if i == |names| then names else names[i := names[|names| - 1]][..|names| - 1]
  }

  function Appended(names: seq<UserId>, name: UserId): seq<UserId> {
    if name in names then names else names + [name]
  }

  function AppendedAll(names: seq<UserId>, more: seq<UserId>): seq<UserId>
    decreases more
  {
    if more == [] then names else AppendedAll(Appended(names, more[0]), more[1..])
  }

  lemma SwapRemovedMeaning(names: seq<UserId>, name: UserId)
    requires Distinct(names)
    ensures Distinct(SwapRemoved(names, name))
    ensures Elements(SwapRemoved(names, name)) == Elements(names) - {name}
  {
    var i, r := IndexOf(names, name), SwapRemoved(names, name);
    if i < |names| {
      var last := |names| - 1;
      forall x | x in Elements(names) - {name}
        ensures x in r
      {
        var k :| 0 <= k < |names| && names[k] == x;
        assert r[if k == last then i else k] == x;
      }
    }
  }

  lemma AppendedMeaning(names: seq<UserId>, name: UserId)
    ensures Elements(Appended(names, name)) == Elements(names) + {name}
    ensures Distinct(names) ==> Distinct(Appended(names, name))
  {
  }

  lemma {:induction false} AppendedAllMeaning(names: seq<UserId>, more: seq<UserId>)
    ensures Elements(AppendedAll(names, more)) == Elements(names) + Elements(more)
    ensures Distinct(names) ==> Distinct(AppendedAll(names, more))
    decreases more
  {
    if more != [] {
      AppendedMeaning(names, more[0]);
      AppendedAllMeaning(Appended(names, more[0]), more[1..]);
      assert more == [more[0]] + more[1..];
    }
  }

  lemma {:induction false} AppendedAllSplit(names: seq<UserId>, more: seq<UserId>, last: UserId)
    ensures AppendedAll(names, more + [last]) == Appended(AppendedAll(names, more), last)
    decreases more
  {
    if more == [] {
      assert more + [last] == [last] && [last][1..] == [];
    } else {
      assert (more + [last])[1..] == more[1..] + [last];
      AppendedAllSplit(Appended(names, more[0]), more[1..], last);
    }
  }

  /** Searches for the name, swaps it with the last entry and drops the last entry. */
  method RemoveSwappingLast(names: seq<UserId>, name: UserId) returns (r: seq<UserId>)
    ensures r == SwapRemoved(names, name)
  {
    r := names;
    var numberNames := |names|;
    for i := 0 to numberNames
      invariant name !in names[..i]
      invariant r == names
    {
      if name == r[i] {
        IndexOfAt(names, name, i);
        r := r[i := r[numberNames - 1]][numberNames - 1 := r[i]];
        r := r[..numberNames - 1];
        return;
      }
    }
    assert names[..numberNames] == names;
  }

  lemma {:induction false} IndexOfAt(names: seq<UserId>, name: UserId, i: nat)
    requires i < |names| && names[i] == name && name !in names[..i]
    ensures IndexOf(names, name) == i
  {
  }

  /** Appends the name unless the list already has it. */
  method AppendUnlessPresent(names: seq<UserId>, name: UserId) returns (r: seq<UserId>)
    ensures r == Appended(names, name)
  {
    for i := 0 to |names|
      invariant name !in names[..i]
    {
      if name == names[i] {
        return names;
      }
    }
    assert names[..|names|] == names;
    r := names + [name];
  }
}
