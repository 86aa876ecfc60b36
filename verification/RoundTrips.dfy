/** Stages that undo each other, with the exact conditions. */
module RoundTrips {
  import opened Sequences
  import opened Documents
  import opened Json
  import opened Transformation
  import opened VersioningRead

  // ----- DECONCAT after CONCAT ----------------------------------------------

  /** All items have the same keys and agree on those that are not concatenated. */
  ghost predicate AgreeOff(items: seq<Clip>, keys: seq<string>) {
    forall i, j | 0 <= i < |items| && 0 <= j < |items| ::
      items[i].Keys == items[j].Keys && forall k | k in items[i] && k !in keys :: items[i][k] == items[j][k]
  }

  lemma StepAt(result: Clip, item: Clip, keys: seq<string>, k: string)
    ensures k in ConcatStep(result, item, keys) <==> k in result || k in item
    ensures k in item && k in keys && k !in result ==> ConcatStep(result, item, keys)[k] == Arr([item[k]])
    ensures k in item && k in keys && k in result && result[k].Arr? ==>
              ConcatStep(result, item, keys)[k] == Arr(result[k].elems + [item[k]])
    ensures k in item && k !in keys && (k !in result || result[k] == item[k]) ==>
              ConcatStep(result, item, keys)[k] == item[k]
  {
  }

  /** What CONCAT leaves of a group under one key: the list of its values if it is concatenated,
      the common value if not. */
  lemma {:induction false} ConcatAt(items: seq<Clip>, keys: seq<string>, k: string)
    requires items != [] && AgreeOff(items, keys)
    ensures k in ConcatOf(items, keys) <==> k in items[0]
    ensures k in items[0] ==> ConcatOf(items, keys)[k] == if k in keys then Arr(Column(items, k)) else items[0][k]
  {
    hide ConcatStep;
    var n := |items| - 1;
    var front, last := items[..n], items[n];
    assert items[0].Keys == last.Keys;
    StepAt(ConcatOf(front, keys), last, keys, k);
    if n == 0 {
      assert k in items[0] ==> Column(items, k) == [last[k]];
    } else {
      ConcatAt(front, keys, k);
      assert Column(items, k) == Column(front, k) + [Get(last, k)];
      assert k in items[0] && k !in keys ==> items[0][k] == last[k];
    }
  }

  /** The values of one key down the group. */
  function Column(items: seq<Clip>, k: string): seq<Value> {
    seq(|items|, i requires 0 <= i < |items| => Get(items[i], k))
  }

  lemma {:induction false} MaxLengthOfColumns(c: Clip, keys: seq<string>, n: nat)
    requires keys != [] && forall k | k in keys :: LengthOf(Get(c, k)) == n
    ensures MaxLength(c, keys) == n
  {
    assert keys[0] in keys;
    if |keys| > 1 {
      assert forall k | k in keys[1..] :: k in keys;
      MaxLengthOfColumns(c, keys[1..], n);
    }
  }

  /** The keys are in every item, and there is one at least. */
  ghost predicate KeysPresent(items: seq<Clip>, keys: seq<string>) {
    keys != [] && forall i, k | 0 <= i < |items| && k in keys :: k in items[i]
  }

  lemma ConcatDeconcat(items: seq<Clip>, keys: seq<string>)
    requires items != [] && AgreeOff(items, keys) && KeysPresent(items, keys)
    ensures DeconcatOf(ConcatOf(items, keys), keys) == items
  {
    hide ConcatOf, MaxLength;
    var c := ConcatOf(items, keys);
    forall k ensures k in c <==> k in items[0] { ConcatAt(items, keys, k); }
    forall k | k in items[0] ensures c[k] == if k in keys then Arr(Column(items, k)) else items[0][k] {
      ConcatAt(items, keys, k);
    }
    forall k | k in keys ensures LengthOf(Get(c, k)) == |items| {
      assert k in items[0];
    }
    MaxLengthOfColumns(c, keys, |items|);
    forall i | 0 <= i < |items| ensures DeconcatAt(c, keys, i) == items[i] {
      DeconcatedItem(c, items, keys, i);
    }
  }

  lemma DeconcatedItem(c: Clip, items: seq<Clip>, keys: seq<string>, i: nat)
    requires i < |items| && AgreeOff(items, keys) && KeysPresent(items, keys)
    requires c.Keys == items[0].Keys
    requires forall k | k in c :: c[k] == if k in keys then Arr(Column(items, k)) else items[0][k]
    ensures DeconcatAt(c, keys, i) == items[i]
  {
    assert items[i].Keys == items[0].Keys;
    var r := DeconcatAt(c, keys, i);
    assert r.Keys == items[i].Keys;
    forall k | k in items[i] ensures r[k] == items[i][k] {
    }
  }

  /** The items DECONCAT makes have one key set, agree off the keys, and have the keys. */
  lemma DeconcatedAgree(c: Clip, keys: seq<string>)
    ensures AgreeOff(DeconcatOf(c, keys), keys)
    ensures DeconcatOf(c, keys) != [] ==> KeysPresent(DeconcatOf(c, keys), keys)
  {
  }

  ghost predicate IsConcatenable(items: seq<Clip>, keys: seq<string>) {
    items == [] || (AgreeOff(items, keys) && KeysPresent(items, keys))
  }

  /** DECONCAT undoes CONCAT on a group exactly when the group is empty, or its items share one key
      set holding all of a non-empty list of keys and agree off that list. */
  lemma ConcatRoundTripIff(items: seq<Clip>, keys: seq<string>)
    ensures DeconcatOf(ConcatOf(items, keys), keys) == items
       <==> IsConcatenable(items, keys)
  {
    if items == [] {
      EmptyHasNoLength(keys);
    } else if AgreeOff(items, keys) && KeysPresent(items, keys) {
      ConcatDeconcat(items, keys);
    } else {
      DeconcatedAgree(ConcatOf(items, keys), keys);
    }
  }

  lemma {:induction false} EmptyHasNoLength(keys: seq<string>)
    ensures MaxLength(map[], keys) == 0
  {
    if keys != [] { EmptyHasNoLength(keys[1..]); }
  }

  function ClipAt(item: Item): Clip { if item.Some? then item.value else map[] }

  function Clips(items: seq<Item>): seq<Clip> { seq(|items|, i requires 0 <= i < |items| => ClipAt(items[i])) }

  predicate AllDefined(items: seq<Item>) { forall i | 0 <= i < |items| :: items[i].Some? }

  ghost predicate IsConcatenableGroup(items: seq<Item>, keys: seq<string>) {
    AllDefined(items) && IsConcatenable(Clips(items), keys)
  }

  lemma ConcatInOf(items: seq<Item>, keys: seq<string>)
    ensures AllDefined(items) ==> ConcatIn(keys)(items) == Ok(Some(ConcatOf(Clips(items), keys)))
    ensures !AllDefined(items) ==> ConcatIn(keys)(items).Err?
  {
    hide ConcatOf;
    TryMapOkIff(items, ClipOf());
    if AllDefined(items) {
      assert TryMap(items, ClipOf()).value == Clips(items);
    }
  }

  lemma GroupRoundTripIff(items: seq<Item>, keys: seq<string>)
    requires AllDefined(items)
    ensures Map(DeconcatOf(ConcatOf(Clips(items), keys), keys), Defined()) == items
       <==> IsConcatenableGroup(items, keys)
  {
    hide ConcatOf, DeconcatOf, IsConcatenable;
    var r := DeconcatOf(ConcatOf(Clips(items), keys), keys);
    ConcatRoundTripIff(Clips(items), keys);
    if Map(r, Defined()) == items {
      forall i | 0 <= i < |r| ensures r[i] == Clips(items)[i] { assert Map(r, Defined())[i] == items[i]; }
      assert r == Clips(items);
    }
  }

  /** The same on whole lists of groups, through the stages: no group holds an undefined item, at which CONCAT
      throws, and every one is of that kind. */
  lemma ConcatStagesRoundTripIff(groups: seq<seq<Item>>, keys: seq<string>)
    ensures Compose([CONCAT(keys), DECONCAT(keys)], Grouped(groups)) == Ok(Grouped(groups))
       <==> forall g | g in groups :: IsConcatenableGroup(g, keys)
  {
    hide IsConcatenable, ConcatOf, DeconcatOf;
    assert [CONCAT(keys), DECONCAT(keys)] == [CONCAT(keys)] + [DECONCAT(keys)];
    ComposeCons(CONCAT(keys), [DECONCAT(keys)], Grouped(groups));
    TryMapOkIff(groups, ConcatIn(keys));
    forall i | 0 <= i < |groups| ensures ConcatIn(keys)(groups[i]).Ok? <==> AllDefined(groups[i]) {
      ConcatInOf(groups[i], keys);
    }
    if forall i | 0 <= i < |groups| :: AllDefined(groups[i]) {
      DefinedGroups(groups, keys);
    } else {
      assert forall i | 0 <= i < |groups| :: groups[i] in groups;
    }
  }

  lemma DefinedGroups(groups: seq<seq<Item>>, keys: seq<string>)
    requires forall i | 0 <= i < |groups| :: AllDefined(groups[i])
    ensures Compose([CONCAT(keys), DECONCAT(keys)], Grouped(groups)) == Ok(Grouped(groups))
       <==> forall g | g in groups :: IsConcatenableGroup(g, keys)
  {
    hide IsConcatenable, ConcatOf, DeconcatOf, AllDefined;
    TryMapOkIff(groups, ConcatIn(keys));
    forall i | 0 <= i < |groups| ensures ConcatIn(keys)(groups[i]) == Ok(Some(ConcatOf(Clips(groups[i]), keys))) {
      ConcatInOf(groups[i], keys);
    }
    var lists := TryMap(groups, ConcatIn(keys)).value;
    TryMapOkIff(lists, DeconcatOne(keys));
    var r := TryMap(lists, DeconcatOne(keys)).value;
    ComposeTwo(CONCAT(keys), DECONCAT(keys), Grouped(groups), Flat(lists));
    forall i | 0 <= i < |groups| ensures r[i] == groups[i] <==> IsConcatenableGroup(groups[i], keys) {
      assert lists[i] == Some(ConcatOf(Clips(groups[i]), keys));
      GroupRoundTripIff(groups[i], keys);
    }
    hide *;
    assert r == groups <==> forall i | 0 <= i < |groups| :: r[i] == groups[i];
    assert forall i | 0 <= i < |groups| :: groups[i] in groups;
  }

  lemma ComposeTwo(a: Stage, b: Stage, d: Data, middle: Data)
    requires RunStage(a, d) == Ok(middle)
    ensures Compose([a, b], d) == RunStage(b, middle)
  {
    ComposeOne(b, middle);
    hide RunStage;
    assert [a, b][1..] == [b];
  }

  lemma ComposeOne(b: Stage, d: Data)
    ensures Compose([b], d) == RunStage(b, d)
  {
    hide RunStage;
    assert [b][1..] == [];
  }

  // ----- JOIN after DEGROUP -------------------------------------------------

  /** The keys that DEGROUP copies into some part. */
  function Covered(sharedKeys: seq<string>, targets: seq<seq<string>>): set<string> {
    if targets == [] then {}
    else Covered(sharedKeys, targets[..|targets| - 1]) + KeySet(sharedKeys) + KeySet(targets[|targets| - 1])
  }

  lemma {:induction false} JoinOfParts(c: Clip, sharedKeys: seq<string>, targets: seq<seq<string>>)
    ensures JoinOf(DegroupOf(c, sharedKeys, targets)) == map k | k in Covered(sharedKeys, targets) :: Get(c, k)
  {
    if targets != [] {
      var n := |targets| - 1;
      JoinOfParts(c, sharedKeys, targets[..n]);
      assert DegroupOf(c, sharedKeys, targets)[..n] == DegroupOf(c, sharedKeys, targets[..n]);
    }
  }

  /** Splitting a clip and joining the parts gives it back exactly when the parts cover its keys
      and no others. */
  lemma DegroupRoundTripIff(c: Clip, sharedKeys: seq<string>, targets: seq<seq<string>>)
    ensures JoinOf(DegroupOf(c, sharedKeys, targets)) == c <==> Covered(sharedKeys, targets) == c.Keys
  {
    JoinOfParts(c, sharedKeys, targets);
    var r := JoinOf(DegroupOf(c, sharedKeys, targets));
    assert r.Keys == Covered(sharedKeys, targets);
    if Covered(sharedKeys, targets) == c.Keys {
      assert forall k | k in r :: r[k] == c[k];
    }
  }

  lemma JoinedPartsIff(item: Item, sharedKeys: seq<string>, targets: seq<seq<string>>)
    requires DegroupOne(sharedKeys, targets)(item).Ok?
    ensures JoinIn()(DegroupOne(sharedKeys, targets)(item).value) == item
       <==> item.Some? && Covered(sharedKeys, targets) == item.value.Keys
  {
    if item.Some? { DegroupRoundTripIff(item.value, sharedKeys, targets); }
  }

  /** An undefined item never comes back: DEGROUP throws at it, or JOIN makes it an empty clip. */
  lemma DegroupStagesRoundTripIff(items: seq<Item>, sharedKeys: seq<string>, targets: seq<seq<string>>)
    ensures Compose([DEGROUP(sharedKeys, targets), JOIN], Flat(items)) == Ok(Flat(items))
       <==> forall item | item in items :: item.Some? && Covered(sharedKeys, targets) == item.value.Keys
  {
    var split := DegroupOne(sharedKeys, targets);
    TryMapOkIff(items, split);
    assert [DEGROUP(sharedKeys, targets), JOIN] == [DEGROUP(sharedKeys, targets)] + [JOIN];
    ComposeCons(DEGROUP(sharedKeys, targets), [JOIN], Flat(items));
    if TryMap(items, split).Ok? {
      var parts := TryMap(items, split).value;
      var r := Map(parts, JoinIn());
      ComposeTwo(DEGROUP(sharedKeys, targets), JOIN, Flat(items), Grouped(parts));
      forall i | 0 <= i < |items|
        ensures r[i] == items[i] <==> items[i].Some? && Covered(sharedKeys, targets) == items[i].value.Keys
      {
        JoinedPartsIff(items[i], sharedKeys, targets);
      }
      hide *;
      assert r == items <==> forall i | 0 <= i < |items| :: r[i] == items[i];
      assert forall i | 0 <= i < |items| :: items[i] in items;
    }
  }
}
