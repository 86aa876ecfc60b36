/** Grouping a list by a string key, in order of first appearance of the keys. */
module Grouping {
  import opened Sequences
  import opened Documents

  datatype Group<T> = Group(key: string, items: seq<T>)

  /** Appends the item to the group of its key, or opens that group at the end. */
  function AddToGroup<T>(gs: seq<Group<T>>, k: string, item: T): seq<Group<T>> {
    if gs == [] then [Group(k, [item])]
    else if gs[0].key == k then [Group(k, gs[0].items + [item])] + gs[1..]
    else [gs[0]] + AddToGroup(gs[1..], k, item)
  }

  /** Items without a key are left out. */
  function GroupUp<T>(s: seq<T>, key: T -> Option<string>): seq<Group<T>> {
    if s == [] then []
    else
      var before, last := GroupUp(s[..|s| - 1], key), s[|s| - 1];
      match key(last) case Some(k) => AddToGroup(before, k, last) case None => before
  }

  function Keyed<T>(key: T -> Option<string>, k: string): T -> bool { (x: T) => key(x) == Some(k) }

  ghost predicate KeysDistinct<T>(gs: seq<Group<T>>) {
    forall i, j | 0 <= i < j < |gs| :: gs[i].key != gs[j].key
  }

  ghost predicate HasGroup<T>(gs: seq<Group<T>>, k: string) {
    exists i | 0 <= i < |gs| :: gs[i].key == k
  }

  lemma {:induction false} AddToGroupKeys<T>(gs: seq<Group<T>>, k: string, item: T)
    requires KeysDistinct(gs)
    ensures KeysDistinct(AddToGroup(gs, k, item))
    ensures forall j :: HasGroup(AddToGroup(gs, k, item), j) <==> j == k || HasGroup(gs, j)
  {
    if gs != [] {
      var r := AddToGroup(gs, k, item);
      if gs[0].key == k {
        assert forall i | 0 <= i < |gs| :: r[i].key == gs[i].key;
        assert HasGroup(gs, k);
      } else {
        var rest := AddToGroup(gs[1..], k, item);
        AddToGroupKeys(gs[1..], k, item);
        assert r == [gs[0]] + rest;
        forall i | 0 <= i < |rest| ensures rest[i].key != gs[0].key {
          assert HasGroup(rest, rest[i].key);
          if rest[i].key != k {
            var j :| 0 <= j < |gs[1..]| && gs[1..][j].key == rest[i].key;
            assert gs[j + 1].key == rest[i].key;
          }
        }
      }
      GroupsOfCons(gs);
      GroupsOfCons(r);
    } else {
      assert AddToGroup(gs, k, item)[0].key == k;
    }
  }

  lemma GroupsOfCons<T>(gs: seq<Group<T>>)
    requires gs != []
    ensures forall j :: HasGroup(gs, j) <==> gs[0].key == j || HasGroup(gs[1..], j)
  {
    forall j ensures HasGroup(gs, j) <==> gs[0].key == j || HasGroup(gs[1..], j) {
      if i :| 0 <= i < |gs| && gs[i].key == j {
        assert i > 0 ==> gs[1..][i - 1].key == j;
      }
      if i :| 0 <= i < |gs[1..]| && gs[1..][i].key == j {
        assert gs[i + 1].key == j;
      }
    }
  }

  /** Every group holds exactly the items of its key, in order, and at least one. */
  ghost predicate GroupsHold<T>(gs: seq<Group<T>>, s: seq<T>, key: T -> Option<string>) {
    forall i | 0 <= i < |gs| :: gs[i].items == Filter(s, Keyed(key, gs[i].key)) && gs[i].items != []
  }

  lemma FilterOneMore<T>(s: seq<T>, item: T, key: T -> Option<string>, k: string, j: string)
    requires key(item) == Some(k)
    ensures Filter(s + [item], Keyed(key, j)) == Filter(s, Keyed(key, j)) + if j == k then [item] else []
  {
    FilterConcat(s, [item], Keyed(key, j));
  }

  lemma {:induction false} AddToGroupItems<T>(gs: seq<Group<T>>, s: seq<T>, key: T -> Option<string>, k: string,
                                              item: T)
    requires KeysDistinct(gs) && GroupsHold(gs, s, key) && key(item) == Some(k)
    requires HasGroup(gs, k) || Filter(s, Keyed(key, k)) == []
    ensures GroupsHold(AddToGroup(gs, k, item), s + [item], key)
  {
    var r := AddToGroup(gs, k, item);
    FilterOneMore(s, item, key, k, k);
    hide Filter, Keyed;
    if gs == [] {
    } else if gs[0].key == k {
      forall i | 1 <= i < |r| ensures r[i].items == Filter(s + [item], Keyed(key, r[i].key)) && r[i].items != [] {
        assert r[i] == gs[i];
        FilterOneMore(s, item, key, k, gs[i].key);
      }
    } else {
      GroupsOfCons(gs);
      assert forall i | 0 <= i < |gs[1..]| :: gs[1..][i] == gs[i + 1];
      AddToGroupItems(gs[1..], s, key, k, item);
      FilterOneMore(s, item, key, k, gs[0].key);
      assert forall i | 1 <= i < |r| :: r[i] == AddToGroup(gs[1..], k, item)[i - 1];
    }
  }

  /** The result of grouping: distinct keys, each group exactly the items of its key. */
  lemma {:induction false} GroupUpSpec<T>(s: seq<T>, key: T -> Option<string>)
    ensures KeysDistinct(GroupUp(s, key))
    ensures GroupsHold(GroupUp(s, key), s, key)
    ensures forall k :: HasGroup(GroupUp(s, key), k) <==> Filter(s, Keyed(key, k)) != []
  {
    if s != [] {
      var front, last := s[..|s| - 1], s[|s| - 1];
      assert s == front + [last];
      GroupUpSpec(front, key);
      forall j
        ensures Filter(s, Keyed(key, j)) == Filter(front, Keyed(key, j)) + if key(last) == Some(j) then [last] else []
      {
        FilterConcat(front, [last], Keyed(key, j));
      }
      match key(last)
      case Some(k) =>
        AddToGroupKeys(GroupUp(front, key), k, last);
        AddToGroupItems(GroupUp(front, key), front, key, k, last);
      case None =>
    }
  }

  // ----- the order of the groups --------------------------------------------

  /** Some item has the one key, and none up to it has the other. */
  ghost predicate AppearsBefore<T>(s: seq<T>, key: T -> Option<string>, k: string, l: string) {
    exists m :: 0 <= m < |s| && key(s[m]) == Some(k) && forall n | 0 <= n <= m :: key(s[n]) != Some(l)
  }

  ghost predicate InOrder<T>(gs: seq<Group<T>>, s: seq<T>, key: T -> Option<string>) {
    forall i, j | 0 <= i < j < |gs| :: AppearsBefore(s, key, gs[i].key, gs[j].key)
  }

  lemma {:induction false} AddToGroupPlaces<T>(gs: seq<Group<T>>, k: string, item: T)
    ensures HasGroup(gs, k) ==>
      |AddToGroup(gs, k, item)| == |gs| && forall i | 0 <= i < |gs| :: AddToGroup(gs, k, item)[i].key == gs[i].key
    ensures !HasGroup(gs, k) ==> AddToGroup(gs, k, item) == gs + [Group(k, [item])]
  {
    if gs != [] {
      GroupsOfCons(gs);
      AddToGroupPlaces(gs[1..], k, item);
      assert gs[0].key == k ==> HasGroup(gs, k);
    }
  }

  lemma StillBefore<T>(s: seq<T>, item: T, key: T -> Option<string>, k: string, l: string)
    requires AppearsBefore(s, key, k, l)
    ensures AppearsBefore(s + [item], key, k, l)
  {
    var m :| 0 <= m < |s| && key(s[m]) == Some(k) && forall n | 0 <= n <= m :: key(s[n]) != Some(l);
    assert forall n | 0 <= n <= m :: (s + [item])[n] == s[n];
  }

  lemma NewComesLast<T>(s: seq<T>, item: T, key: T -> Option<string>, k: string, l: string)
    requires Filter(s, Keyed(key, k)) != [] && Filter(s, Keyed(key, l)) == []
    ensures AppearsBefore(s + [item], key, k, l)
  {
    var x := Filter(s, Keyed(key, k))[0];
    FilterMember(s, Keyed(key, k), x);
    var m :| 0 <= m < |s| && s[m] == x;
    forall n | 0 <= n < |s| ensures key(s[n]) != Some(l) { FilterMember(s, Keyed(key, l), s[n]); }
    assert forall n | 0 <= n <= m :: (s + [item])[n] == s[n];
  }

  /** The groups come in the order in which their keys first appear. */
  lemma {:induction false} GroupsInOrder<T>(s: seq<T>, key: T -> Option<string>)
    ensures InOrder(GroupUp(s, key), s, key)
  {
    if s != [] {
      var front, last := s[..|s| - 1], s[|s| - 1];
      assert s == front + [last];
      var gs, r := GroupUp(front, key), GroupUp(s, key);
      GroupsInOrder(front, key);
      GroupUpSpec(front, key);
      if key(last).Some? { AddToGroupPlaces(gs, key(last).value, last); }
      assert r == match key(last) case Some(k) => AddToGroup(gs, k, last) case None => gs;
      hide GroupUp, AddToGroup, Filter, AppearsBefore, Keyed;
      forall i, j | 0 <= i < j < |r| ensures AppearsBefore(s, key, r[i].key, r[j].key) {
        if j < |gs| {
          StillBefore(front, last, key, r[i].key, r[j].key);
        } else {
          assert HasGroup(gs, gs[i].key);
          NewComesLast(front, last, key, r[i].key, r[j].key);
        }
      }
    }
  }

  function Items<T>(gs: seq<Group<T>>): seq<seq<T>> { Map(gs, (g: Group<T>) => g.items) }

  function Concatenated<T>(groups: seq<seq<T>>): seq<T> {
    if groups == [] then [] else groups[0] + Concatenated(groups[1..])
  }

  lemma {:induction false} InConcatenated<T>(groups: seq<seq<T>>, i: nat, x: T)
    requires i < |groups| && x in groups[i]
    ensures x in Concatenated(groups)
  {
    if i > 0 {
      assert groups[1..][i - 1] == groups[i];
      InConcatenated(groups[1..], i - 1, x);
    }
  }

  lemma {:induction false} SomeGroup<T>(groups: seq<seq<T>>, x: T) returns (i: nat)
    requires x in Concatenated(groups)
    ensures i < |groups| && x in groups[i]
  {
    if x in groups[0] {
      i := 0;
    } else {
      i := SomeGroup(groups[1..], x);
      i := i + 1;
    }
  }

  lemma {:induction false} ConcatenatedAppend<T>(a: seq<seq<T>>, b: seq<seq<T>>)
    ensures Concatenated(a + b) == Concatenated(a) + Concatenated(b)
  {
    if a == [] {
      assert a + b == b;
    } else {
      assert (a + b)[1..] == a[1..] + b;
      ConcatenatedAppend(a[1..], b);
    }
  }

  lemma {:induction false} AddToGroupBag<T>(gs: seq<Group<T>>, k: string, item: T)
    ensures multiset(Concatenated(Items(AddToGroup(gs, k, item)))) == multiset(Concatenated(Items(gs))) + multiset{item}
  {
    var r := AddToGroup(gs, k, item);
    if gs == [] {
      assert Items(r) == [[item]];
    } else {
      assert Items(gs)[1..] == Items(gs[1..]);
      assert Items(r)[1..] == Items(r[1..]);
      if gs[0].key != k {
        AddToGroupBag(gs[1..], k, item);
      }
    }
  }

  function HasSomeKey<T>(key: T -> Option<string>): T -> bool { (x: T) => key(x).Some? }

  /** The groups together hold the items that have a key, each exactly once. */
  lemma {:induction false} GroupUpBag<T>(s: seq<T>, key: T -> Option<string>)
    ensures multiset(Concatenated(Items(GroupUp(s, key)))) == multiset(Filter(s, HasSomeKey(key)))
  {
    if s != [] {
      var front, last := s[..|s| - 1], s[|s| - 1];
      assert s == front + [last];
      GroupUpBag(front, key);
      FilterConcat(front, [last], HasSomeKey(key));
      if key(last).Some? {
        AddToGroupBag(GroupUp(front, key), key(last).value, last);
      }
    }
  }
}
