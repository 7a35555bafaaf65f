/** Applying the add and remove lists of a change set to a group's member table. */
module MemberUpdates {
  import opened Registers
  import opened ChangeSets

  /** A list for the user interface names every member of the set, once. */
  predicate Reports(list: seq<UserId>, members: set<UserId>) {
    Distinct(list) && Elements(list) == members
  }

  /** No removed stranger is also added more often than removed. */
  predicate NoSurplusAdds(members: set<UserId>, add: seq<UserId>, rm: seq<UserId>) {
    forall x <- rm :: x in members || multiset(add)[x] <= multiset(rm)[x]
  }

  /** Every removed name cancels one entry of the add list. */
  method CancelAdds(add: seq<UserId>, rm: seq<UserId>) returns (rest: seq<UserId>)
    ensures multiset(rest) == multiset(add) - multiset(rm)
  {
    rest := add;
    for i := 0 to |rm|
      invariant multiset(rest) == multiset(add) - multiset(rm[..i])
    {
      assert rm[..i + 1] == rm[..i] + [rm[i]];
      if rest == [] {
        continue;
      }
      rest := EraseFirst(rest, rm[i]);
    }
    assert rm[..|rm|] == rm;
  }

  method EraseFirst(names: seq<UserId>, name: UserId) returns (r: seq<UserId>)
    ensures multiset(r) == multiset(names) - multiset{name}
  {
    for j := 0 to |names|
      invariant name !in names[..j]
    {
      if names[j] == name {
        assert names == names[..j] + [name] + names[j + 1..];
        return names[..j] + names[j + 1..];
      }
    }
    assert names[..|names|] == names;
    r := names;
  }

  /** Inserts the names that are not members yet, and keeps only those in the list. */
  method InsertUnknown(members: set<UserId>, names: seq<UserId>) returns (after: set<UserId>, kept: seq<UserId>)
    ensures after == members + Elements(names)
    ensures Reports(kept, Elements(names) - members)
  {
    after, kept := members, names;
    var i := 0;
    while i < |kept|
      invariant i <= |kept|
      invariant after == members + Elements(kept[..i])
      invariant Reports(kept[..i], Elements(kept[..i]) - members)
      invariant Elements(names) + members == Elements(kept) + after
      decreases |kept| - i
    {
      ghost var was := kept;
      assert kept == kept[..i] + [kept[i]] + kept[i + 1..];
      if kept[i] in after {
        kept := kept[..i] + kept[i + 1..];
        assert kept[..i] == was[..i];
        assert forall x <- was :: x in kept || x == was[i];
        continue;
      }
      after := after + {kept[i]};
      i := i + 1;
      assert kept[..i] == was[..i - 1] + [was[i - 1]];
    }
    assert kept[..i] == kept;
  }

  /** Deletes the names that are members, and keeps only those in the list. */
  method DeleteKnown(members: set<UserId>, names: seq<UserId>) returns (after: set<UserId>, kept: seq<UserId>)
    ensures after == members - Elements(names)
    ensures Reports(kept, Elements(names) * members)
  {
    after, kept := members, names;
    var i := 0;
    while i < |kept|
      invariant i <= |kept|
      invariant after == members - Elements(kept[..i])
      invariant Reports(kept[..i], Elements(kept[..i]) * members)
      invariant Elements(kept) <= Elements(names)
      invariant forall x <- names :: x in kept || x !in after
      decreases |kept| - i
    {
      ghost var was := kept;
      assert kept == kept[..i] + [kept[i]] + kept[i + 1..];
      if kept[i] !in after {
        kept := kept[..i] + kept[i + 1..];
        assert kept[..i] == was[..i];
        assert forall x <- was :: x in kept || x == was[i];
        continue;
      }
      after := after - {kept[i]};
      i := i + 1;
      assert kept[..i] == was[..i - 1] + [was[i - 1]];
      assert Elements(kept[..i]) == Elements(was[..i - 1]) + {was[i - 1]};
    }
    assert kept[..i] == kept;
  }

  /**
   * The member update, for arbitrary lists. The two lists for the user interface name exactly the members
   * gained and the members lost, unless a stranger is added more often than it is removed in the same set.
   */
  method UpdateMembers(members: set<UserId>, add: seq<UserId>, rm: seq<UserId>)
    returns (after: set<UserId>, added: seq<UserId>, removed: seq<UserId>)
    ensures after == (members + Elements(add)) - Elements(rm)
    ensures Reports(added, after - members) && Reports(removed, members - after) <==> NoSurplusAdds(members, add, rm)
    ensures Distinct(add) ==> Reports(added, after - members) && Reports(removed, members - after)
  {
    var rest := CancelAdds(add, rm);
    var grown;
    grown, added := InsertUnknown(members, rest);
    after, removed := DeleteKnown(grown, rm);
    CancelMeaning(add, rm, rest);
    CountOfDistinct(add, rm);
    ghost var gained, lost := grown - members, Elements(rm);
    assert Elements(added) == gained && after - members == gained - lost;
    assert Elements(removed) == members * lost + gained * lost && members - after == members * lost;
    UntouchedByRemoval(gained, lost);
    assert forall x :: x in gained <==> x in rest && x !in members;
    assert forall x :: x in lost <==> x in rm;
    assert (forall x <- lost :: x !in gained) <==> forall x <- rm :: x in members || x !in rest;
  }

  lemma UntouchedByRemoval<T>(a: set<T>, b: set<T>)
    ensures a - b == a <==> forall x <- b :: x !in a
    ensures a * b == {} <==> forall x <- b :: x !in a
  {
    if a - b == a {
      assert forall x <- a :: x in a - b;
    }
    if x :| x in b && x in a {
      assert x in a * b;
    }
  }

  lemma CancelMeaning(add: seq<UserId>, rm: seq<UserId>, rest: seq<UserId>)
    requires multiset(rest) == multiset(add) - multiset(rm)
    ensures forall x :: x in rest <==> multiset(add)[x] > multiset(rm)[x]
    ensures Elements(rest) - Elements(rm) == Elements(add) - Elements(rm)
  {
    forall x
      ensures x in rest <==> multiset(add)[x] > multiset(rm)[x]
    {
      assert x in rest <==> x in multiset(rest);
    }
    forall x | x !in rm
      ensures x in rest <==> x in add
    {
      assert x in add <==> x in multiset(add);
      assert x !in multiset(rm);
    }
  }

  lemma {:induction false} CountOfDistinct(add: seq<UserId>, rm: seq<UserId>)
    ensures Distinct(add) ==> forall x <- rm :: multiset(add)[x] <= multiset(rm)[x]
  {
    forall x <- rm | Distinct(add)
      ensures multiset(add)[x] <= multiset(rm)[x]
    {
      assert x in multiset(rm);
      DistinctCount(add, x);
    }
  }

  lemma {:induction false} DistinctCount(s: seq<UserId>, x: UserId)
    requires Distinct(s)
    ensures multiset(s)[x] <= 1
  {
    if s != [] {
      DistinctCount(s[1..], x);
      assert s == [s[0]] + s[1..];
      if s[0] == x {
        assert x !in s[1..];
        assert x !in multiset(s[1..]);
      }
    }
  }
}
