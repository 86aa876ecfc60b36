/** The stages on clip objects in memory. AFFINE changes its clips in place; the other stages pass
    references on or build new clips. Every method is proved to compute its stage of Transformation. */
module TransformationHeap {
  import opened Sequences
  import opened Documents
  import opened Json
  import opened Grouping
  import GroupKeys
  import opened Transformation

  class ClipObject {
    var fields: Clip

    constructor (fields: Clip)
      ensures this.fields == fields
    {
      this.fields := fields;
    }
  }

  /** A place in a list in memory; null stands for undefined. */
  type Ref = ClipObject?

  datatype HeapData = FlatRefs(refs: seq<Ref>) | GroupedRefs(groups: seq<seq<Ref>>)

  // ----- reading ------------------------------------------------------------

  function ItemOf(ref: Ref): Item
    reads ref
  {
    if ref == null then None else Some(ref.fields)
  }

  function ReadList(refs: seq<Ref>): (r: seq<Item>)
    reads refs
    ensures |r| == |refs| && forall i | 0 <= i < |refs| :: r[i] == ItemOf(refs[i])
  {
    if refs == [] then [] else ReadList(refs[..|refs| - 1]) + [ItemOf(refs[|refs| - 1])]
  }

  function GroupRefs(groups: seq<seq<Ref>>): set<ClipObject> {
    set g, o: ClipObject | g in groups && o in g :: o
  }

  function ReadGroups(groups: seq<seq<Ref>>): (r: seq<seq<Item>>)
    reads GroupRefs(groups)
    ensures |r| == |groups| && forall i | 0 <= i < |groups| :: r[i] == ReadList(groups[i])
  {
    if groups == [] then []
    else
      var front, last := groups[..|groups| - 1], groups[|groups| - 1];
      assert last in groups && forall o: ClipObject | o in last :: o in GroupRefs(groups);
      assert forall g | g in front :: g in groups;
      ReadGroups(front) + [ReadList(last)]
  }

  function Refs(d: HeapData): set<ClipObject> {
    match d
    case FlatRefs(refs) => set o: ClipObject | o in refs
    case GroupedRefs(groups) => GroupRefs(groups)
  }

  ghost function Read(d: HeapData): Data
    reads Refs(d)
  {
    match d
    case FlatRefs(refs) => Flat(ReadList(refs))
    case GroupedRefs(groups) => Grouped(ReadGroups(groups))
  }

  /** The method's result holds the values of the stage's result. */
  ghost predicate Agrees(r: Result<HeapData, Error>, v: Result<Data, Error>)
    reads if r.Ok? then Refs(r.value) else {}
  {
    match r
    case Ok(d) => v == Ok(Read(d))
    case Err(e) => v == Err(e)
  }

  // ----- aliasing -----------------------------------------------------------

  function Flattened(d: HeapData): seq<Ref> {
    match d case FlatRefs(refs) => refs case GroupedRefs(groups) => Concatenated(groups)
  }

  /** No clip object occurs twice. */
  ghost predicate Once(refs: seq<Ref>) { forall o: ClipObject | o in refs :: multiset(refs)[o] <= 1 }

  ghost predicate OnceEach(d: HeapData) { Once(Flattened(d)) }

  lemma DistinctIsOnce(refs: seq<Ref>)
    requires Distinct(refs)
    ensures Once(refs)
  {
    forall o: ClipObject | o in refs ensures multiset(refs)[o] <= 1 { DistinctMultiplicity(refs, o); }
  }

  lemma OnceAt(refs: seq<Ref>, i: nat, j: nat)
    requires Once(refs) && i < j < |refs| && refs[i] != null
    ensures refs[i] != refs[j]
  {
    assert refs == refs[..j] + [refs[j]] + refs[j + 1..];
    assert refs[i] in refs[..j];
    assert multiset(refs) == multiset(refs[..j]) + multiset([refs[j]]) + multiset(refs[j + 1..]);
    assert multiset(refs[..j])[refs[i]] >= 1;
    assert multiset(refs)[refs[i]] <= 1;
  }

  lemma OnceAppend(a: seq<Ref>, b: seq<Ref>)
    ensures Once(a + b) <==> Once(a) && Once(b) && forall o: ClipObject | o in a :: o !in b
  {
    assert multiset(a + b) == multiset(a) + multiset(b);
    forall o: ClipObject
      ensures o in a <==> multiset(a)[o] > 0
      ensures o in b <==> multiset(b)[o] > 0
    {
    }
    if Once(a + b) {
      forall o: ClipObject ensures multiset(a)[o] + multiset(b)[o] <= 1 { assert multiset(a + b)[o] <= 1; }
    }
  }

  lemma OnceNothing()
    ensures Once([]) && Concatenated<Ref>([]) == []
  {
  }

  lemma RefIsFlattened(d: HeapData, o: ClipObject)
    ensures o in Refs(d) <==> o in Flattened(d)
  {
    if d.GroupedRefs? && o in Flattened(d) {
      var i := SomeGroup<Ref>(d.groups, o);
    }
    if d.GroupedRefs? && o in Refs(d) {
      var g :| g in d.groups && o in g;
      var i :| 0 <= i < |d.groups| && d.groups[i] == g;
      InConcatenated<Ref>(d.groups, i, o);
    }
  }

  lemma RefsAreFlattened(d: HeapData)
    ensures forall o: ClipObject :: o in Refs(d) <==> o in Flattened(d)
  {
    forall o: ClipObject ensures o in Refs(d) <==> o in Flattened(d) { RefIsFlattened(d, o); }
  }

  lemma {:induction false} ConcatenatedPush<T>(groups: seq<seq<T>>, g: seq<T>)
    ensures Concatenated(groups + [g]) == Concatenated(groups) + g
  {
    if groups == [] {
      assert [] + [g] == [g];
    } else {
      assert (groups + [g])[1..] == groups[1..] + [g];
      ConcatenatedPush(groups[1..], g);
    }
  }

  /** The objects of a are among those of b, each no more often. */
  ghost predicate Within(a: seq<Ref>, b: seq<Ref>) {
    forall o: ClipObject | o in a :: multiset(a)[o] <= multiset(b)[o]
  }

  lemma WithinNothing()
    ensures Within([], [])
  {
  }

  lemma WithinAppend(a: seq<Ref>, b: seq<Ref>, c: seq<Ref>, d: seq<Ref>)
    requires Within(a, b) && Within(c, d)
    ensures Within(a + c, b + d)
  {
    assert multiset(a + c) == multiset(a) + multiset(c) && multiset(b + d) == multiset(b) + multiset(d);
  }

  lemma WithinPush(a: seq<Ref>, b: seq<Ref>, ref: Ref, c: seq<Ref>)
    requires Within(a, b) && (ref == null || ref in c)
    ensures Within(a + [ref], b + c)
  {
    forall o: ClipObject ensures multiset([ref])[o] <= multiset(c)[o] { assert o == ref ==> o in multiset(c); }
    WithinAppend(a, b, [ref], c);
  }

  lemma WithinSkip(a: seq<Ref>, b: seq<Ref>, ref: Ref)
    requires Within(a, b)
    ensures Within(a, b + [ref])
  {
    assert multiset(b + [ref]) == multiset(b) + multiset([ref]);
  }

  lemma WithinKeeps(a: seq<Ref>, b: seq<Ref>)
    requires Within(a, b)
    ensures forall o: ClipObject | o in a :: o in b
    ensures Once(b) ==> Once(a)
  {
    forall o: ClipObject | o in a ensures o in b {
      assert o in multiset(a);
      assert multiset(b)[o] > 0;
    }
    if Once(b) {
      forall o: ClipObject ensures multiset(a)[o] <= 1 { assert multiset(a)[o] <= multiset(b)[o] <= 1; }
    }
  }

  // ----- shapes -------------------------------------------------------------

  function FlatOf(d: HeapData): (r: Result<seq<Ref>, Error>)
    reads Refs(d)
    ensures r.Ok? ==> AsFlat(Read(d)) == Ok(ReadList(r.value)) && r.value == Flattened(d)
    ensures r.Err? ==> AsFlat(Read(d)) == Err(r.error)
  {
    match d
    case FlatRefs(refs) => Ok(refs)
    case GroupedRefs(groups) => if groups == [] then Ok([]) else Err(WrongShape)
  }

  function GroupsOf(d: HeapData): (r: Result<seq<seq<Ref>>, Error>)
    reads Refs(d)
    ensures r.Ok? ==> AsGroups(Read(d)) == Ok(ReadGroups(r.value)) && Concatenated(r.value) == Flattened(d)
    ensures r.Err? ==> AsGroups(Read(d)) == Err(r.error)
  {
    match d
    case GroupedRefs(groups) => Ok(groups)
    case FlatRefs(refs) => if refs == [] then Ok([]) else Err(WrongShape)
  }

  // ----- loops that stop at the first error ---------------------------------

  lemma {:induction false} TryMapSucceeds<T, U>(s: seq<T>, f: T -> Result<U, Error>, us: seq<U>)
    requires |us| == |s| && forall i | 0 <= i < |s| :: f(s[i]) == Ok(us[i])
    ensures TryMap(s, f) == Ok(us)
  {
    if s != [] {
      assert forall i | 0 <= i < |s[1..]| :: s[1..][i] == s[i + 1] && us[1..][i] == us[i + 1];
      TryMapSucceeds(s[1..], f, us[1..]);
      assert us == [us[0]] + us[1..];
    }
  }

  lemma {:induction false} TryMapFails<T, U>(s: seq<T>, f: T -> Result<U, Error>, k: nat, e: Error)
    requires k < |s| && f(s[k]) == Err(e) && forall i | 0 <= i < k :: f(s[i]).Ok?
    ensures TryMap(s, f) == Err(e)
  {
    if k > 0 {
      assert forall i | 0 <= i < k - 1 :: s[1..][i] == s[i + 1];
      TryMapFails(s[1..], f, k - 1, e);
    }
  }

  // ----- stages that build new clips ----------------------------------------

  /** New objects holding the given values. */
  method Allocate(values: seq<Clip>) returns (refs: seq<Ref>)
    ensures ReadList(refs) == Map(values, Defined())
    ensures fresh(refs) && Once(refs)
  {
    hide Once;
    refs := [];
    OnceNothing();
    for i := 0 to |values|
      invariant |refs| == i && fresh(refs) && Once(refs)
      invariant forall j | 0 <= j < i :: ItemOf(refs[j]) == Some(values[j])
    {
      var o := new ClipObject(values[i]);
      OncePush(refs, o);
      refs := refs + [o];
    }
  }

  lemma OncePush(refs: seq<Ref>, o: ClipObject)
    requires Once(refs) && o !in refs
    ensures Once(refs + [o])
  {
    OnceAppend(refs, [o]);
    DistinctIsOnce([o]);
  }

  method Join(groups: seq<seq<Ref>>) returns (joined: seq<Ref>)
    ensures ReadList(joined) == Map(old(ReadGroups(groups)), JoinIn())
    ensures fresh(joined) && Once(joined)
  {
    hide JoinOf, ReadList, ReadGroups, Once;
    joined := [];
    OnceNothing();
    for i := 0 to |groups|
      invariant |joined| == i && fresh(joined) && Once(joined)
      invariant forall j | 0 <= j < i :: ItemOf(joined[j]) == Some(JoinOf(ReadList(groups[j])))
    {
      var obj := JoinItems(groups[i]);
      var o := new ClipObject(obj);
      OncePush(joined, o);
      joined := joined + [o];
    }
  }

  method JoinItems(items: seq<Ref>) returns (obj: Clip)
    ensures obj == JoinOf(old(ReadList(items)))
  {
    obj := map[];
    for k := 0 to |items|
      invariant obj == JoinOf(ReadList(items[..k]))
    {
      ReadPrefix(items, k);
      var item := items[k];
      if item != null { obj := obj + item.fields; }
    }
    assert items[..|items|] == items;
  }

  lemma ReadPrefix(items: seq<Ref>, k: nat)
    requires k < |items|
    ensures ReadList(items[..k + 1]) == ReadList(items[..k]) + [ItemOf(items[k])]
  {
  }

  method Concat(groups: seq<seq<Ref>>, concatKeys: seq<string>) returns (r: Result<seq<Ref>, Error>)
    ensures r.Ok? ==> TryMap(old(ReadGroups(groups)), ConcatIn(concatKeys)) == Ok(ReadList(r.value))
    ensures r.Ok? ==> fresh(r.value) && Once(r.value)
    ensures r.Err? ==> TryMap(old(ReadGroups(groups)), ConcatIn(concatKeys)) == Err(r.error)
  {
    hide ConcatIn, TryMap, ReadList, ReadGroups, Once;
    var results: seq<Ref> := [];
    ghost var vals := ReadGroups(groups);
    OnceNothing();
    for i := 0 to |groups|
      invariant |results| == i && fresh(results) && Once(results)
      invariant forall j | 0 <= j < i :: ConcatIn(concatKeys)(vals[j]) == Ok(ItemOf(results[j]))
    {
      var concatenated := ConcatItems(groups[i], concatKeys);
      match concatenated
      case Err(e) =>
        TryMapFails(vals, ConcatIn(concatKeys), i, e);
        return Err(e);
      case Ok(c) =>
        var o := new ClipObject(c);
        OncePush(results, o);
        results := results + [o];
    }
    TryMapSucceeds(vals, ConcatIn(concatKeys), ReadList(results));
    return Ok(results);
  }

  /** The clips in turn; it throws at an undefined item. */
  method ConcatItems(items: seq<Ref>, concatKeys: seq<string>) returns (r: Result<Clip, Error>)
    ensures r.Ok? ==> ConcatIn(concatKeys)(old(ReadList(items))) == Ok(Some(r.value))
    ensures r.Err? ==> ConcatIn(concatKeys)(old(ReadList(items))) == Err(r.error)
  {
    hide ConcatStep, ReadList, TryMap;
    var result: Clip := map[];
    ghost var vals, clips: seq<Clip> := ReadList(items), [];
    for k := 0 to |items|
      invariant |clips| == k && forall j | 0 <= j < k :: vals[j] == Some(clips[j])
      invariant result == ConcatOf(clips, concatKeys)
    {
      var item := items[k];
      if item == null {
        TryMapFails(vals, ClipOf(), k, Failed);
        return Err(Failed);
      }
      result := ConcatKeys(result, item.fields, concatKeys);
      assert (clips + [item.fields])[..k] == clips;
      clips := clips + [item.fields];
    }
    TryMapSucceeds(vals, ClipOf(), clips);
    return Ok(result);
  }

  function ConcatSome(before: Clip, item: Clip, concatKeys: seq<string>, done: set<string>): Clip {
    map k | k in before.Keys + (done * item.Keys) ::
      if k in done && k in item then ConcatStep(before, item, concatKeys)[k] else before[k]
  }

  /** The loop over the keys of one item, in any order. */
  method ConcatKeys(before: Clip, item: Clip, concatKeys: seq<string>) returns (result: Clip)
    ensures result == ConcatStep(before, item, concatKeys)
  {
    result := before;
    var todo := item.Keys;
    ConcatNoneAndAll(before, item, concatKeys);
    hide ConcatSome, ConcatStep, Truthy;
    while todo != {}
      invariant todo <= item.Keys
      invariant result == ConcatSome(before, item, concatKeys, item.Keys - todo)
    {
      SetHasMember(todo);
      var key :| key in todo;
      if key in concatKeys {
        var list := match Get(result, key) case Arr(elems) => elems case _ => [];
        result := result[key := Arr(list + [item[key]])];
      } else if !Truthy(Get(result, key)) {
        result := result[key := item[key]];
      }
      ConcatOneMore(before, item, concatKeys, todo, key);
      todo := todo - {key};
    }
    assert item.Keys - {} == item.Keys;
  }

  lemma ConcatNoneAndAll(before: Clip, item: Clip, concatKeys: seq<string>)
    ensures ConcatSome(before, item, concatKeys, item.Keys - item.Keys) == before
    ensures ConcatSome(before, item, concatKeys, item.Keys) == ConcatStep(before, item, concatKeys)
  {
  }

  lemma ConcatOneMore(before: Clip, item: Clip, concatKeys: seq<string>, todo: set<string>, key: string)
    requires todo <= item.Keys && key in todo
    ensures var result := ConcatSome(before, item, concatKeys, item.Keys - todo);
      ConcatSome(before, item, concatKeys, item.Keys - (todo - {key})) ==
      if key in concatKeys then
        result[key := Arr((match Get(result, key) case Arr(elems) => elems case _ => []) + [item[key]])]
      else if !Truthy(Get(result, key)) then result[key := item[key]]
      else result
  {
    assert Get(ConcatSome(before, item, concatKeys, item.Keys - todo), key) == Get(before, key);
  }

  method Deconcat(items: seq<Ref>, deconcatKeys: seq<string>) returns (r: Result<seq<seq<Ref>>, Error>)
    ensures r.Ok? ==> TryMap(old(ReadList(items)), DeconcatOne(deconcatKeys)) == Ok(ReadGroups(r.value))
    ensures r.Ok? ==> fresh(Concatenated(r.value)) && Once(Concatenated(r.value))
    ensures r.Err? ==> TryMap(old(ReadList(items)), DeconcatOne(deconcatKeys)) == Err(r.error)
  {
    hide DeconcatOf, Concatenated, Once, ReadList, ReadGroups, TryMap;
    var results: seq<seq<Ref>> := [];
    ghost var vals, flat: seq<Ref> := ReadList(items), [];
    OnceNothing();
    for i := 0 to |items|
      invariant |results| == i && flat == Concatenated(results) && fresh(flat) && Once(flat)
      invariant forall j | 0 <= j < i :: DeconcatOne(deconcatKeys)(vals[j]) == Ok(ReadList(results[j]))
    {
      var item := items[i];
      if item == null && deconcatKeys != [] {
        TryMapFails(vals, DeconcatOne(deconcatKeys), i, Failed);
        return Err(Failed);
      }
      var list := Allocate(if item == null then [] else DeconcatOf(item.fields, deconcatKeys));
      ConcatenatedPush(results, list);
      OnceAppend(flat, list);
      results, flat := results + [list], flat + list;
    }
    TryMapSucceeds(vals, DeconcatOne(deconcatKeys), ReadGroups(results));
    return Ok(results);
  }

  method Degroup(items: seq<Ref>, sharedKeys: seq<string>, targetKeyGroups: seq<seq<string>>)
    returns (r: Result<seq<seq<Ref>>, Error>)
    ensures r.Ok? ==> TryMap(old(ReadList(items)), DegroupOne(sharedKeys, targetKeyGroups)) == Ok(ReadGroups(r.value))
    ensures r.Ok? ==> fresh(Concatenated(r.value)) && Once(Concatenated(r.value))
    ensures r.Err? ==> TryMap(old(ReadList(items)), DegroupOne(sharedKeys, targetKeyGroups)) == Err(r.error)
  {
    hide Concatenated, Once, ReadList, ReadGroups, TryMap, PicksNothing;
    var splitData: seq<seq<Ref>> := [];
    ghost var vals, flat: seq<Ref> := ReadList(items), [];
    OnceNothing();
    for i := 0 to |items|
      invariant |splitData| == i && flat == Concatenated(splitData) && fresh(flat) && Once(flat)
      invariant forall j | 0 <= j < i ::
        DegroupOne(sharedKeys, targetKeyGroups)(vals[j]) == Ok(ReadList(splitData[j]))
    {
      var item := items[i];
      if item == null && !PicksNothing(sharedKeys, targetKeyGroups) {
        TryMapFails(vals, DegroupOne(sharedKeys, targetKeyGroups), i, Failed);
        return Err(Failed);
      }
      var parts := Allocate(Map(targetKeyGroups, Pick(if item == null then map[] else item.fields, sharedKeys)));
      ConcatenatedPush(splitData, parts);
      OnceAppend(flat, parts);
      splitData, flat := splitData + [parts], flat + parts;
    }
    TryMapSucceeds(vals, DegroupOne(sharedKeys, targetKeyGroups), ReadGroups(splitData));
    return Ok(splitData);
  }

  method Count(groups: seq<seq<Ref>>, rules: seq<KeyRule>) returns (r: Result<seq<Ref>, Error>)
    ensures r.Ok? ==> TryMap(old(ReadGroups(groups)), CountIn(rules)) == Ok(ReadList(r.value))
    ensures r.Ok? ==> fresh(r.value) && Once(r.value)
    ensures r.Err? ==> TryMap(old(ReadGroups(groups)), CountIn(rules)) == Err(r.error)
  {
    hide AddKeys, TryMap, ReadGroups, ReadList, Once;
    var merged: seq<Ref> := [];
    ghost var vals := ReadGroups(groups);
    OnceNothing();
    for i := 0 to |groups|
      invariant |merged| == i && fresh(merged) && Once(merged)
      invariant forall j | 0 <= j < i :: CountIn(rules)(vals[j]) == Ok(ItemOf(merged[j]))
    {
      var counted := CountItems(groups[i], rules);
      match counted
      case Err(e) =>
        TryMapFails(vals, CountIn(rules), i, e);
        return Err(e);
      case Ok(c) =>
        var o := new ClipObject(c);
        OncePush(merged, o);
        merged := merged + [o];
    }
    TryMapSucceeds(vals, CountIn(rules), ReadList(merged));
    return Ok(merged);
  }

  method CountItems(group: seq<Ref>, rules: seq<KeyRule>) returns (r: Result<Clip, Error>)
    ensures r == CountOf(old(ReadList(group)), rules)
  {
    hide Eval;
    var first := if group == [] then Undefined else ValueOf(ItemOf(group[0]));
    var item: Clip := map["count" := Num(|group|)];
    ghost var start := item;
    assert rules[0..] == rules;
    for i := 0 to |rules|
      invariant AddKeys(item, rules[i..], first) == AddKeys(start, rules, first)
    {
      var pair := rules[i];
      assert rules[i..][0] == pair && rules[i..][1..] == rules[i + 1..];
      match Eval(pair.key, first)
      case Err(e) => return Err(e);
      case Ok(key) =>
        match Eval(pair.value, first)
        case Err(e) => return Err(e);
        case Ok(value) => item := item[Text(key) := value];
    }
    return Ok(item);
  }

  // ----- stages that pass references on -------------------------------------

  method LeaveOne(groups: seq<seq<Ref>>, formula: Ast, isDescend: bool) returns (r: Result<seq<Ref>, Error>)
    ensures r.Ok? ==> TryMap(old(ReadGroups(groups)), LeaveOneIn(formula, isDescend)) == Ok(ReadList(r.value))
    ensures r.Ok? ==> Within(r.value, Concatenated(groups))
    ensures r.Err? ==> TryMap(old(ReadGroups(groups)), LeaveOneIn(formula, isDescend)) == Err(r.error)
  {
    hide BestIndex, Concatenated, TryMap, ReadGroups, ReadList, Within, Eval;
    var merged: seq<Ref> := [];
    ghost var vals := ReadGroups(groups);
    PrefixBag(groups, 0);
    WithinNothing();
    for i := 0 to |groups|
      invariant |merged| == i && Within(merged, Concatenated(groups[..i]))
      invariant forall j | 0 <= j < i :: LeaveOneIn(formula, isDescend)(vals[j]) == Ok(ItemOf(merged[j]))
    {
      match TryMap(ReadList(groups[i]), Score(formula))
      case Err(e) =>
        TryMapFails(vals, LeaveOneIn(formula, isDescend), i, e);
        return Err(e);
      case Ok(scores) =>
        var best := BestIndex(scores, isDescend);
        var left := if best.Some? then groups[i][best.value] else null;
        PrefixBag(groups, i + 1);
        WithinPush(merged, Concatenated(groups[..i]), left, groups[i]);
        merged := merged + [left];
    }
    assert groups[..|groups|] == groups;
    TryMapSucceeds(vals, LeaveOneIn(formula, isDescend), ReadList(merged));
    return Ok(merged);
  }

  lemma PrefixBag(groups: seq<seq<Ref>>, i: nat)
    requires i <= |groups|
    ensures i == 0 ==> Concatenated(groups[..i]) == []
    ensures i > 0 ==> Concatenated(groups[..i]) == Concatenated(groups[..i - 1]) + groups[i - 1]
  {
    if i > 0 {
      assert groups[..i] == groups[..i - 1] + [groups[i - 1]];
      ConcatenatedPush(groups[..i - 1], groups[i - 1]);
    }
  }

  /** Of these clips, those that pass are kept. */
  ghost predicate FilteredInto(refs: seq<Ref>, r: seq<Ref>, filters: seq<seq<Verifier>>)
    reads refs
  {
    forall o: ClipObject | o in refs :: o in r <==> Passes(Some(o.fields), filters) == Ok(true)
  }

  method FilterList(items: seq<Ref>, filters: seq<seq<Verifier>>) returns (r: Result<seq<Ref>, Error>)
    ensures r.Ok? ==> FilterItems(old(ReadList(items)), filters) == Ok(ReadList(r.value))
    ensures r.Ok? ==> Within(r.value, items) && FilteredInto(items, r.value, filters)
    ensures r.Err? ==> FilterItems(old(ReadList(items)), filters) == Err(r.error)
  {
    hide Passes, FilterItems, Within, Prepend, ReadList;
    var kept: seq<Ref> := [];
    ghost var vals := ReadList(items);
    WithinNothing();
    FilterStart(vals, filters);
    for i := 0 to |items|
      invariant Within(kept, items[..i]) && FilteredInto(items[..i], kept, filters)
      invariant FilterItems(vals, filters) == Prepend(ReadList(kept), FilterItems(vals[i..], filters))
    {
      assert items[..i + 1] == items[..i] + [items[i]];
      match Passes(ItemOf(items[i]), filters)
      case Err(e) =>
        FilterFails(vals, i, filters, ReadList(kept), e);
        return Err(e);
      case Ok(keep) =>
        FilterStep(vals, i, filters, ReadList(kept), keep);
        WithinPush(kept, items[..i], items[i], [items[i]]);
        WithinSkip(kept, items[..i], items[i]);
        WithinKeeps(kept, items[..i]);
        assert ReadList(kept + [items[i]]) == ReadList(kept) + [vals[i]];
        if keep { kept := kept + [items[i]]; }
    }
    assert items[..|items|] == items;
    FilterEnd(vals, filters, ReadList(kept));
    return Ok(kept);
  }

  ghost function Prepend(front: seq<Item>, r: Result<seq<Item>, Error>): Result<seq<Item>, Error> {
    match r case Err(e) => Err(e) case Ok(rest) => Ok(front + rest)
  }

  lemma FilterStart(vals: seq<Item>, filters: seq<seq<Verifier>>)
    ensures Prepend(ReadList([]), FilterItems(vals[0..], filters)) == FilterItems(vals, filters)
  {
    assert vals[0..] == vals;
    var r := FilterItems(vals, filters);
    assert r.Ok? ==> [] + r.value == r.value;
  }

  lemma FilterStep(vals: seq<Item>, i: nat, filters: seq<seq<Verifier>>, kept: seq<Item>, keep: bool)
    requires i < |vals| && Passes(vals[i], filters) == Ok(keep)
    requires FilterItems(vals, filters) == Prepend(kept, FilterItems(vals[i..], filters))
    ensures FilterItems(vals, filters)
         == Prepend(if keep then kept + [vals[i]] else kept, FilterItems(vals[i + 1..], filters))
  {
    assert vals[i..][0] == vals[i] && vals[i..][1..] == vals[i + 1..];
    var rest := FilterItems(vals[i + 1..], filters);
    assert rest.Ok? ==> kept + ([vals[i]] + rest.value) == (kept + [vals[i]]) + rest.value;
  }

  lemma FilterFails(vals: seq<Item>, i: nat, filters: seq<seq<Verifier>>, kept: seq<Item>, e: Error)
    requires i < |vals| && Passes(vals[i], filters) == Err(e)
    requires FilterItems(vals, filters) == Prepend(kept, FilterItems(vals[i..], filters))
    ensures FilterItems(vals, filters) == Err(e)
  {
    assert vals[i..][0] == vals[i];
  }

  lemma FilterEnd(vals: seq<Item>, filters: seq<seq<Verifier>>, kept: seq<Item>)
    requires FilterItems(vals, filters) == Prepend(kept, FilterItems(vals[|vals|..], filters))
    ensures FilterItems(vals, filters) == Ok(kept)
  {
    assert vals[|vals|..] == [] && kept + [] == kept;
  }

  method FilterGroups(groups: seq<seq<Ref>>, filters: seq<seq<Verifier>>) returns (r: Result<seq<seq<Ref>>, Error>)
    ensures r.Ok? ==> TryMap(old(ReadGroups(groups)), FilterIn(filters)) == Ok(ReadGroups(r.value))
    ensures r.Ok? ==> Within(Concatenated(r.value), Concatenated(groups))
    ensures r.Err? ==> TryMap(old(ReadGroups(groups)), FilterIn(filters)) == Err(r.error)
  {
    hide FilterItems, Concatenated, TryMap, ReadGroups, ReadList, Within;
    var kept: seq<seq<Ref>> := [];
    ghost var vals := ReadGroups(groups);
    PrefixBag(groups, 0);
    OnceNothing();
    WithinNothing();
    for i := 0 to |groups|
      invariant |kept| == i && Within(Concatenated(kept), Concatenated(groups[..i]))
      invariant forall j | 0 <= j < i :: FilterItems(vals[j], filters) == Ok(ReadList(kept[j]))
    {
      var one := FilterList(groups[i], filters);
      match one
      case Err(e) =>
        TryMapFails(vals, FilterIn(filters), i, e);
        return Err(e);
      case Ok(list) =>
        PrefixBag(groups, i + 1);
        ConcatenatedPush(kept, list);
        WithinAppend(Concatenated(kept), Concatenated(groups[..i]), list, groups[i]);
        kept := kept + [list];
    }
    assert groups[..|groups|] == groups;
    TryMapSucceeds(vals, FilterIn(filters), ReadGroups(kept));
    return Ok(kept);
  }

  // ----- GROUP --------------------------------------------------------------

  function KeyedRefs(gs: seq<Group<Ref>>): set<ClipObject> {
    set g, o: ClipObject | g in gs && o in g.items :: o
  }

  ghost function ReadKeyed(gs: seq<Group<Ref>>): (r: seq<Group<Item>>)
    reads KeyedRefs(gs)
    ensures |r| == |gs|
    ensures forall i | 0 <= i < |gs| :: r[i].key == gs[i].key && r[i].items == ReadList(gs[i].items)
  {
    if gs == [] then []
    else
      var front, last := gs[..|gs| - 1], gs[|gs| - 1];
      assert last in gs && forall o: ClipObject | o in last.items :: o in KeyedRefs(gs);
      assert forall g | g in front :: g in gs;
      ReadKeyed(front) + [Group(last.key, ReadList(last.items))]
  }

  lemma {:induction false} ReadAddToGroup(gs: seq<Group<Ref>>, k: string, ref: Ref)
    ensures ReadKeyed(AddToGroup(gs, k, ref)) == AddToGroup(ReadKeyed(gs), k, ItemOf(ref))
  {
    hide ReadKeyed, ReadList;
    var vs := ReadKeyed(gs);
    if gs == [] {
      assert vs == [] && ReadList([ref]) == [ItemOf(ref)];
    } else if gs[0].key == k {
      assert ReadList(gs[0].items + [ref]) == ReadList(gs[0].items) + [ItemOf(ref)];
      assert ReadKeyed(AddToGroup(gs, k, ref))[1..] == ReadKeyed(gs[1..]) == vs[1..];
    } else {
      ReadAddToGroup(gs[1..], k, ref);
      assert vs[1..] == ReadKeyed(gs[1..]);
      assert ReadKeyed(AddToGroup(gs, k, ref))[1..] == ReadKeyed(AddToGroup(gs[1..], k, ref));
    }
  }

  /** The loop of GROUP; an item without one of the keys stands alone or is skipped. The table finds something under
      an inherited name, and it is no list to add to. */
  method GroupList(items: seq<Ref>, keys: seq<string>, skipUnmatch: bool) returns (r: Result<seq<seq<Ref>>, Error>)
    ensures r.Ok? ==> GroupStage(old(ReadList(items)), keys, skipUnmatch) == Ok(ReadGroups(r.value))
    ensures r.Ok? ==> Within(Concatenated(r.value), items)
    ensures r.Err? ==> GroupStage(old(ReadList(items)), keys, skipUnmatch) == Err(r.error)
  {
    hide GroupUp, HasKeys, KeyTexts, Concatenated, Items, Within, ReadList, ReadKeyed, ReadGroups, Filter, INHERITED;
    var groupsMap: seq<Group<Ref>> := [];
    var unmatched: seq<seq<Ref>> := [];
    NothingGrouped(keys);
    for i := 0 to |items|
      invariant forall j | 0 <= j < i :: IsGroupable(ItemOf(items[j]), keys)
      invariant ReadKeyed(groupsMap) == GroupUp(ReadList(items[..i]), GroupKey(keys))
      invariant ReadGroups(unmatched) == LeftAlone(ReadList(items[..i]), keys, skipUnmatch)
      invariant Within(Concatenated(Items(groupsMap)) + Concatenated(unmatched), items[..i])
    {
      var item := items[i];
      ReadPrefix(items, i);
      assert items[..i + 1] == items[..i] + [item];
      GroupPrefix(ReadList(items[..i]), ItemOf(item), keys, skipUnmatch);
      if HasKeys(ItemOf(item), keys) {
        var groupKey := GroupKeys.Joined(KeyTexts(ItemOf(item), keys));
        if groupKey in INHERITED {
          assert ItemOf(item) in ReadList(items);
          return Err(Failed);
        }
        ReadAddToGroup(groupsMap, groupKey, item);
        BagAddToGroup(groupsMap, unmatched, items[..i], groupKey, item);
        groupsMap := AddToGroup(groupsMap, groupKey, item);
      } else if skipUnmatch {
        WithinSkip(Concatenated(Items(groupsMap)) + Concatenated(unmatched), items[..i], item);
      } else {
        BagStandAlone(groupsMap, unmatched, items[..i], item);
        assert ReadList([item]) == [ItemOf(item)];
        unmatched := unmatched + [[item]];
      }
    }
    assert items[..|items|] == items;
    var groups := Items(groupsMap) + unmatched;
    ConcatenatedAppend(Items(groupsMap), unmatched);
    ReadItems(groupsMap);
    assert ReadGroups(groups) == ReadGroups(Items(groupsMap)) + ReadGroups(unmatched);
    return Ok(groups);
  }

  ghost function LeftAlone(items: seq<Item>, keys: seq<string>, skipUnmatch: bool): seq<seq<Item>> {
    if skipUnmatch then [] else Map(Filter(items, Unkeyed(keys)), Alone())
  }

  lemma NothingGrouped(keys: seq<string>)
    ensures ReadKeyed([]) == GroupUp(ReadList([]), GroupKey(keys))
    ensures forall skip :: ReadGroups([]) == LeftAlone(ReadList([]), keys, skip)
    ensures Within(Concatenated(Items<Ref>([])) + Concatenated<Ref>([]), [])
  {
  }

  lemma GroupPrefix(front: seq<Item>, c: Item, keys: seq<string>, skipUnmatch: bool)
    ensures GroupUp(front + [c], GroupKey(keys)) == match GroupKey(keys)(c)
      case Some(k) => AddToGroup(GroupUp(front, GroupKey(keys)), k, c)
      case None => GroupUp(front, GroupKey(keys))
    ensures LeftAlone(front + [c], keys, skipUnmatch)
      == LeftAlone(front, keys, skipUnmatch) + if skipUnmatch || HasKeys(c, keys) then [] else [[c]]
  {
    hide HasKeys, KeyTexts;
    assert (front + [c])[..|front|] == front;
    FilterConcat(front, [c], Unkeyed(keys));
  }

  lemma BagAddToGroup(gs: seq<Group<Ref>>, unmatched: seq<seq<Ref>>, seen: seq<Ref>, k: string, ref: Ref)
    requires Within(Concatenated(Items(gs)) + Concatenated(unmatched), seen)
    ensures Within(Concatenated(Items(AddToGroup(gs, k, ref))) + Concatenated(unmatched), seen + [ref])
  {
    AddToGroupBag(gs, k, ref);
    hide Concatenated, Items, AddToGroup;
    var a, b := Concatenated(Items(gs)), Concatenated(unmatched);
    var more := Concatenated(Items(AddToGroup(gs, k, ref)));
    assert multiset(more + b) == multiset(a + b) + multiset{ref};
    assert multiset(seen + [ref]) == multiset(seen) + multiset{ref};
  }

  lemma BagStandAlone(gs: seq<Group<Ref>>, unmatched: seq<seq<Ref>>, seen: seq<Ref>, ref: Ref)
    requires Within(Concatenated(Items(gs)) + Concatenated(unmatched), seen)
    ensures Within(Concatenated(Items(gs)) + Concatenated(unmatched + [[ref]]), seen + [ref])
  {
    ConcatenatedPush(unmatched, [ref]);
    hide Concatenated, Items;
    var a, b := Concatenated(Items(gs)), Concatenated(unmatched);
    assert a + (b + [ref]) == (a + b) + [ref];
    WithinPush(a + b, seen, ref, [ref]);
  }

  lemma ReadItems(gs: seq<Group<Ref>>)
    ensures ReadGroups(Items(gs)) == Items(ReadKeyed(gs))
  {
  }

  // ----- FLATTEN ------------------------------------------------------------

  /** A clip without an object under the key is passed on; for the others a new clip is built. It throws at an
      undefined item. */
  method FlattenList(items: seq<Ref>, keepFlattened: bool, flattenedKey: string, keepFlattenedKey: bool)
    returns (r: Result<seq<Ref>, Error>)
    ensures r.Ok? ==>
              TryMap(old(ReadList(items)), FlattenOne(keepFlattened, flattenedKey, keepFlattenedKey))
              == Ok(ReadList(r.value))
    ensures r.Err? ==>
              TryMap(old(ReadList(items)), FlattenOne(keepFlattened, flattenedKey, keepFlattenedKey)) == Err(r.error)
    ensures r.Ok? ==> FlattenedList(items, r.value, flattenedKey)
    ensures r.Ok? ==> forall o: ClipObject | o in r.value :: o in items || fresh(o)
  {
    hide ReadList, Entries, FlattenOf, TryMap, Once;
    ghost var vals := ReadList(items);
    var list: seq<Ref> := [];
    OnceNothing();
    for i := 0 to |items|
      invariant |list| == i
      invariant forall j | 0 <= j < i ::
        FlattenOne(keepFlattened, flattenedKey, keepFlattenedKey)(vals[j]) == Ok(ItemOf(list[j]))
      invariant forall j | 0 <= j < i ::
        items[j] != null && list[j] != null
        && if PassedOn(items[j], flattenedKey) then list[j] == items[j] else fresh(list[j])
      invariant Once(items) ==> Once(list)
    {
      var item := items[i];
      if item == null {
        TryMapFails(vals, FlattenOne(keepFlattened, flattenedKey, keepFlattenedKey), i, Failed);
        return Err(Failed);
      }
      var o := FlattenItem(item, keepFlattened, flattenedKey, keepFlattenedKey);
      if Once(items) {
        forall j | 0 <= j < i ensures list[j] != o { OnceAt(items, j, i); }
        OncePush(list, o);
      }
      list := list + [o];
    }
    TryMapSucceeds(vals, FlattenOne(keepFlattened, flattenedKey, keepFlattenedKey), ReadList(list));
    return Ok(list);
  }

  /** The clip has no object under the key. */
  predicate PassedOn(o: ClipObject, key: string)
    reads o
  {
    Entries(Get(o.fields, key)) == None
  }

  function Restricted(m: Clip, keys: set<string>): Clip { map k | k in m && k in keys :: m[k] }

  method FlattenItem(item: ClipObject, keepFlattened: bool, flattenedKey: string, keepFlattenedKey: bool)
    returns (r: ClipObject)
    ensures r.fields == FlattenOf(old(item.fields), keepFlattened, flattenedKey, keepFlattenedKey)
    ensures if PassedOn(item, flattenedKey) then r == item else fresh(r)
  {
    hide Entries;
    match Entries(Get(item.fields, flattenedKey))
    case None => return item;
    case Some(objectToFlatten) =>
      var flattenedItem := item.fields;
      var todo := objectToFlatten.Keys;
      while todo != {}
        invariant todo <= objectToFlatten.Keys
        invariant var done := Restricted(objectToFlatten, objectToFlatten.Keys - todo);
          flattenedItem == if keepFlattened then done + item.fields else item.fields + done
      {
        SetHasMember(todo);
        var key :| key in todo;
        if !keepFlattened || key !in item.fields { flattenedItem := flattenedItem[key := objectToFlatten[key]]; }
        todo := todo - {key};
      }
      assert Restricted(objectToFlatten, objectToFlatten.Keys) == objectToFlatten;
      if !keepFlattenedKey { flattenedItem := flattenedItem - {flattenedKey}; }
      r := new ClipObject(flattenedItem);
  }

  method FlattenGroups(groups: seq<seq<Ref>>, keepFlattened: bool, flattenedKey: string, keepFlattenedKey: bool)
    returns (r: Result<seq<seq<Ref>>, Error>)
    ensures r.Ok? ==>
              TryMap(old(ReadGroups(groups)), FlattenIn(keepFlattened, flattenedKey, keepFlattenedKey))
              == Ok(ReadGroups(r.value))
    ensures r.Err? ==>
              TryMap(old(ReadGroups(groups)), FlattenIn(keepFlattened, flattenedKey, keepFlattenedKey)) == Err(r.error)
    ensures r.Ok? ==> FlattenedList(Concatenated(groups), Concatenated(r.value), flattenedKey)
    ensures r.Ok? ==> (AllPassedOn(Concatenated(groups), flattenedKey) ==> r.value == groups)
    ensures r.Ok? ==> forall o: ClipObject | o in Concatenated(r.value) :: o in Concatenated(groups) || fresh(o)
  {
    hide ReadList, ReadGroups, Concatenated, FlattenOne, FlattenedList, TryMap;
    ghost var vals := ReadGroups(groups);
    var lists: seq<seq<Ref>> := [];
    for i := 0 to |groups|
      invariant |lists| == i
      invariant forall j | 0 <= j < i ::
        FlattenIn(keepFlattened, flattenedKey, keepFlattenedKey)(vals[j]) == Ok(ReadList(lists[j]))
      invariant forall j | 0 <= j < i :: FlattenedList(groups[j], lists[j], flattenedKey)
      invariant forall j, o: ClipObject | 0 <= j < i && o in lists[j] :: o in groups[j] || fresh(o)
      invariant forall j, k, o: ClipObject | 0 <= j < k < i && o in lists[j] && o in lists[k] :: o in groups[k]
    {
      var list := FlattenList(groups[i], keepFlattened, flattenedKey, keepFlattenedKey);
      match list
      case Err(e) =>
        TryMapFails(vals, FlattenIn(keepFlattened, flattenedKey, keepFlattenedKey), i, e);
        return Err(e);
      case Ok(g) =>
        lists := lists + [g];
    }
    TryMapSucceeds(vals, FlattenIn(keepFlattened, flattenedKey, keepFlattenedKey), ReadGroups(lists));
    FlattenedLists(groups, lists, flattenedKey);
    forall o: ClipObject | o in Concatenated(lists) ensures o in Concatenated(groups) || fresh(o) {
      var j := SomeGroup<Ref>(lists, o);
      if o in groups[j] { InConcatenated<Ref>(groups, j, o); }
    }
    return Ok(lists);
  }

  predicate AllPassedOn(refs: seq<Ref>, key: string)
    reads refs
  {
    forall o: ClipObject | o in refs :: PassedOn(o, key)
  }

  /** Of these clips, those with no object under the key are passed on. */
  ghost predicate FlattenedInto(refs: seq<Ref>, r: seq<Ref>, key: string)
    reads refs
  {
    forall o: ClipObject | o in refs :: o in r <==> PassedOn(o, key)
  }

  ghost predicate FlattenedList(refs: seq<Ref>, r: seq<Ref>, key: string)
    reads refs
  {
    && FlattenedInto(refs, r, key)
    && (AllPassedOn(refs, key) ==> r == refs)
    && (Once(refs) ==> Once(r))
  }

  lemma FlattenedAppend(a: seq<Ref>, r: seq<Ref>, b: seq<Ref>, t: seq<Ref>, key: string)
    requires FlattenedList(a, r, key) && FlattenedList(b, t, key)
    requires forall o: ClipObject | o in r :: o in a || (o !in b && o !in t)
    requires forall o: ClipObject | o in t :: o in b || o !in a
    ensures FlattenedList(a + b, r + t, key)
    ensures AllPassedOn(a + b, key) ==> r == a && AllPassedOn(b, key)
  {
    hide PassedOn, Once;
    if Once(a + b) {
      OnceAppend(a, b);
      OnceAppend(r, t);
    }
    if AllPassedOn(a + b, key) {
      assert forall o: ClipObject | o in a :: o in a + b;
      assert forall o: ClipObject | o in b :: o in a + b;
    }
  }

  /** What comes out of the groups is in its group or in none of them. */
  ghost predicate OwnOrNew(groups: seq<seq<Ref>>, r: seq<seq<Ref>>) {
    && |r| == |groups|
    && (forall j, o: ClipObject | 0 <= j < |r| && o in r[j] ::
          o in groups[j] || forall k | 0 <= k < |groups| :: o !in groups[k])
    && (forall j, k, o: ClipObject | 0 <= j < k < |r| && o in r[j] && o in r[k] :: o in groups[k])
  }

  lemma FlattenedApart(groups: seq<seq<Ref>>, r: seq<seq<Ref>>)
    requires OwnOrNew(groups, r) && groups != []
    ensures OwnOrNew(groups[1..], r[1..])
    ensures forall o: ClipObject | o in r[0] ::
              o in groups[0] || (o !in Concatenated(groups[1..]) && o !in Concatenated(r[1..]))
    ensures forall o: ClipObject | o in Concatenated(r[1..]) :: o in Concatenated(groups[1..]) || o !in groups[0]
  {
    var gs, rs := groups[1..], r[1..];
    assert forall j | 0 <= j < |gs| :: gs[j] == groups[j + 1] && rs[j] == r[j + 1];
    forall o: ClipObject | o in r[0] ensures o in groups[0] || (o !in Concatenated(gs) && o !in Concatenated(rs)) {
      if o !in groups[0] && o in Concatenated(gs) { var j := SomeGroup<Ref>(gs, o); }
      if o !in groups[0] && o in Concatenated(rs) { var j := SomeGroup<Ref>(rs, o); }
    }
    forall o: ClipObject | o in Concatenated(rs) ensures o in Concatenated(gs) || o !in groups[0] {
      var j := SomeGroup<Ref>(rs, o);
      if o in gs[j] { InConcatenated<Ref>(gs, j, o); }
    }
  }

  lemma {:induction false} FlattenedLists(groups: seq<seq<Ref>>, r: seq<seq<Ref>>, key: string)
    requires OwnOrNew(groups, r) && forall j | 0 <= j < |groups| :: FlattenedList(groups[j], r[j], key)
    ensures FlattenedList(Concatenated(groups), Concatenated(r), key)
    ensures AllPassedOn(Concatenated(groups), key) ==> r == groups
  {
    if groups != [] {
      hide FlattenedList, AllPassedOn, OwnOrNew;
      var gs, rs := groups[1..], r[1..];
      FlattenedApart(groups, r);
      assert forall j | 0 <= j < |gs| :: gs[j] == groups[j + 1] && rs[j] == r[j + 1];
      FlattenedLists(gs, rs, key);
      FlattenedAppend(groups[0], r[0], Concatenated(gs), Concatenated(rs), key);
      assert groups == [groups[0]] + gs && r == [r[0]] + rs;
    }
  }

  // ----- AFFINE -------------------------------------------------------------

  /** One clip changed in place: keys added, rules applied, keys removed. */
  method AffineItem(o: ClipObject, p: AffineParams) returns (error: Option<Error>)
    modifies o
    ensures error == None ==> AffineOf(old(o.fields), p) == Ok(o.fields)
    ensures error.Some? ==> AffineOf(old(o.fields), p) == Err(error.value)
  {
    hide Eval;
    for i := 0 to |p.addedKeyRules|
      invariant AddOwnKeys(old(o.fields), p.addedKeyRules) == AddOwnKeys(o.fields, p.addedKeyRules[i..])
    {
      var pair := p.addedKeyRules[i];
      assert p.addedKeyRules[i..][0] == pair && p.addedKeyRules[i..][1..] == p.addedKeyRules[i + 1..];
      match Eval(pair.key, Obj(o.fields))
      case Err(e) => return Some(e);
      case Ok(newKey) =>
        match Eval(pair.value, Obj(o.fields))
        case Err(e) => return Some(e);
        case Ok(newValue) => o.fields := o.fields[Text(newKey) := newValue];
    }
    ghost var ruled := ApplyRules(o.fields, p.rules);
    error := ApplyToKeys(o, p.rules);
    if error.Some? { return; }
    for i := 0 to |p.removedKeys|
      invariant o.fields == RemoveKeys(ruled.value, p.removedKeys[..i])
    {
      o.fields := o.fields - {p.removedKeys[i]};
    }
    assert p.removedKeys[..|p.removedKeys|] == p.removedKeys;
  }

  /** The keys in `done` have their rule applied. */
  function RuledSome(c: Clip, rules: map<string, Ast>, done: set<string>): Clip
    requires forall k | k in c && k in rules && k in done :: Eval(rules[k], c[k]).Ok?
  {
    map k | k in c :: if k in rules && k in done then Eval(rules[k], c[k]).value else c[k]
  }

  /** The loop over the keys of the clip, in any order. */
  method ApplyToKeys(o: ClipObject, rules: map<string, Ast>) returns (error: Option<Error>)
    modifies o
    ensures error == None ==> ApplyRules(old(o.fields), rules) == Ok(o.fields)
    ensures error.Some? ==> ApplyRules(old(o.fields), rules) == Err(error.value)
  {
    hide Eval;
    ghost var start := o.fields;
    var todo := o.fields.Keys;
    while todo != {}
      invariant todo <= start.Keys
      invariant forall k | k in start && k in rules && k !in todo :: Eval(rules[k], start[k]).Ok?
      invariant o.fields == RuledSome(start, rules, start.Keys - todo)
    {
      SetHasMember(todo);
      var key :| key in todo;
      if key in rules {
        match Eval(rules[key], o.fields[key])
        case Err(_) => return Some(Failed);
        case Ok(value) => o.fields := o.fields[key := value];
      }
      todo := todo - {key};
    }
    assert start.Keys - todo == start.Keys;
    RuledAll(start, rules);
    return None;
  }

  lemma RuledAll(c: Clip, rules: map<string, Ast>)
    requires forall k | k in c && k in rules :: Eval(rules[k], c[k]).Ok?
    ensures ApplyRules(c, rules) == Ok(RuledSome(c, rules, c.Keys))
  {
    hide Eval;
    assert ApplyRules(c, rules).value == RuledSome(c, rules, c.Keys);
  }

  /** AFFINE failed at place n: the clips before it are affined, those after it are as they were. */
  ghost predicate StopsAt(p: AffineParams, before: seq<Item>, after: seq<Item>, n: nat) {
    && n < |before| && |after| == |before| && AffineOne(p)(before[n]).Err?
    && (forall j | 0 <= j < n :: AffineOne(p)(before[j]) == Ok(after[j]))
    && forall j | n < j < |before| :: after[j] == before[j]
  }

  lemma FailsAt(p: AffineParams, before: seq<Item>, after: seq<Item>, n: nat, e: Error)
    requires n < |before| && |after| == |before| && AffineOne(p)(before[n]) == Err(e)
    requires forall j | 0 <= j < n :: AffineOne(p)(before[j]) == Ok(after[j])
    requires forall j | n < j < |before| :: after[j] == before[j]
    ensures StopsAt(p, before, after, n) && TryMap(before, AffineOne(p)) == Err(e)
  {
    hide AffineOf;
    TryMapFails(before, AffineOne(p), n, e);
  }

  lemma OthersDiffer(items: seq<Ref>, i: nat)
    requires Once(items) && i < |items| && items[i] != null
    ensures forall j | 0 <= j < |items| && j != i :: items[j] != items[i]
  {
    hide Once;
    forall j | 0 <= j < |items| && j != i ensures items[j] != items[i] {
      if j < i { if items[j] != null { OnceAt(items, j, i); } } else { OnceAt(items, i, j); }
    }
  }

  method AffineList(items: seq<Ref>, p: AffineParams) returns (r: Result<seq<Ref>, Error>)
    requires Once(items)
    modifies items
    ensures r.Ok? ==> && TryMap(old(ReadList(items)), AffineOne(p)) == Ok(ReadList(items))
                      && ReadList(r.value) == Filter(ReadList(items), HasEntries())
                      && Within(r.value, items)
    ensures r.Err? ==> TryMap(old(ReadList(items)), AffineOne(p)) == Err(r.error)
    ensures r.Err? ==> exists n: nat :: StopsAt(p, old(ReadList(items)), ReadList(items), n)
  {
    hide AffineOf, TryMap, ReadList, Within, Filter, Once, StopsAt;
    ghost var before := ReadList(items);
    var affined: seq<Ref> := [];
    WithinNothing();
    NothingFiltered();
    for i := 0 to |items|
      invariant forall j | i <= j < |items| :: ItemOf(items[j]) == before[j]
      invariant forall j | 0 <= j < i :: AffineOne(p)(before[j]) == Ok(ItemOf(items[j]))
      invariant Within(affined, items[..i]) && forall j | 0 <= j < |affined| :: affined[j] in items[..i]
      invariant ReadList(affined) == Filter(ReadList(items[..i]), HasEntries())
    {
      ghost var done, kept := ReadList(items[..i]), ReadList(affined);
      var item := items[i];
      if item == null {
        FailsAt(p, before, ReadList(items), i, Failed);
        return Err(Failed);
      }
      OthersDiffer(items, i);
      assert forall j | 0 <= j < |affined| :: affined[j] != item;
      var error := AffineItem(item, p);
      assert ReadList(items[..i]) == done && ReadList(affined) == kept;
      if error.Some? {
        FailsAt(p, before, ReadList(items), i, error.value);
        return Err(error.value);
      }
      assert items[..i + 1] == items[..i] + [item];
      ReadPrefix(items, i);
      FilterPush(done, item.fields);
      WithinPush(affined, items[..i], item, [item]);
      WithinSkip(affined, items[..i], item);
      assert ReadList(affined + [item]) == ReadList(affined) + [Some(item.fields)];
      if item.fields != map[] { affined := affined + [item]; }
    }
    assert items[..|items|] == items;
    TryMapSucceeds(before, AffineOne(p), ReadList(items));
    return Ok(affined);
  }

  lemma NothingFiltered()
    ensures ReadList([]) == Filter(ReadList([]), HasEntries())
  {
  }

  lemma FilterPush(front: seq<Item>, c: Clip)
    ensures Filter(front + [Some(c)], HasEntries())
         == Filter(front, HasEntries()) + if c == map[] then [] else [Some(c)]
  {
    FilterConcat(front, [Some(c)], HasEntries());
  }

  // ----- pipelines ----------------------------------------------------------

  /** The stage builds every clip of its result. */
  predicate Builds(stage: Stage) {
    stage.JOIN? || stage.CONCAT? || stage.DECONCAT? || stage.DEGROUP? || stage.COUNT?
  }

  /** The stage returns clips of its input only. */
  predicate Selects(stage: Stage) { stage.GROUP? || stage.LEAVEONE? || stage.FILTER? || stage.AFFINE? }

  /** Where the clips of the result come from; none is repeated unless one was. */
  twostate predicate Moves(new stage: Stage, d: HeapData, new r: Result<HeapData, Error>)
    reads Flattened(d)
  {
    r.Ok? ==>
      && stage != UNKNOWN
      && (Builds(stage) ==> OnceEach(r.value) && forall o | o in Refs(r.value) :: fresh(o))
      && (Selects(stage) ==> forall o | o in Refs(r.value) :: o in Refs(d))
      && (stage.FLATTEN? ==> && (forall o | o in Refs(r.value) :: o in Refs(d) || fresh(o))
                             && FlattenedInto(Flattened(d), Flattened(r.value), stage.flattenedKey)
                             && (AllPassedOn(Flattened(d), stage.flattenedKey) ==> r.value == d))
      && (stage.FILTER? && d.FlatRefs? ==> FilteredInto(Flattened(d), Flattened(r.value), stage.filters))
      && (OnceEach(d) ==> OnceEach(r.value))
  }

  /** Every clip that reaches the stage is changed to its affined value; if the stage fails, those before the place
      where it does. A list of lists is refused untouched. */
  twostate predicate Affines(d: HeapData, new p: AffineParams, new r: Result<HeapData, Error>)
    reads Refs(d)
  {
    && (r.Ok? ==> forall o | o in Refs(d) :: AffineOf(old(o.fields), p) == Ok(o.fields))
    && (d.GroupedRefs? && d.groups != [] ==> forall o | o in Refs(d) :: o.fields == old(o.fields))
    && (r.Err? && d.FlatRefs? ==> exists n: nat :: StopsAt(p, old(ReadList(d.refs)), ReadList(d.refs), n))
  }

  method TransformJoin(d: HeapData) returns (r: Result<HeapData, Error>)
    ensures Agrees(r, RunStage(JOIN, old(Read(d))))
    ensures Moves(JOIN, d, r)
  {
    hide Concatenated, ReadList, ReadGroups, Once, TryMap, Within, GroupItems;
    match GroupsOf(d)
    case Err(e) => r := Err(e);
    case Ok(list) =>
      var joined := Join(list);
      r := Ok(FlatRefs(joined));
  }

  method TransformConcat(d: HeapData, keys: seq<string>) returns (r: Result<HeapData, Error>)
    ensures Agrees(r, RunStage(CONCAT(keys), old(Read(d))))
    ensures Moves(CONCAT(keys), d, r)
  {
    hide Concatenated, ReadList, ReadGroups, Once, TryMap, Within, GroupItems;
    match GroupsOf(d)
    case Err(e) => r := Err(e);
    case Ok(list) =>
      var concatenated := Concat(list, keys);
      match concatenated
      case Err(e) => r := Err(e);
      case Ok(results) => r := Ok(FlatRefs(results));
  }

  method TransformCount(d: HeapData, rules: seq<KeyRule>) returns (r: Result<HeapData, Error>)
    ensures Agrees(r, RunStage(COUNT(rules), old(Read(d))))
    ensures Moves(COUNT(rules), d, r)
  {
    hide Concatenated, ReadList, ReadGroups, Once, TryMap, Within, GroupItems;
    match GroupsOf(d)
    case Err(e) => r := Err(e);
    case Ok(list) =>
      var counted := Count(list, rules);
      match counted
      case Err(e) => r := Err(e);
      case Ok(merged) => r := Ok(FlatRefs(merged));
  }

  method TransformDegroup(d: HeapData, shared: seq<string>, targets: seq<seq<string>>)
    returns (r: Result<HeapData, Error>)
    ensures Agrees(r, RunStage(DEGROUP(shared, targets), old(Read(d))))
    ensures Moves(DEGROUP(shared, targets), d, r)
  {
    hide Concatenated, ReadList, ReadGroups, Once, TryMap, Within, GroupItems;
    match FlatOf(d)
    case Err(e) => r := Err(e);
    case Ok(list) =>
      var split := Degroup(list, shared, targets);
      match split
      case Err(e) => r := Err(e);
      case Ok(splitData) =>
        r := Ok(GroupedRefs(splitData));
        RefsAreFlattened(r.value);
  }

  /** Of a list of lists nothing but empty lists is left. */
  method DeconcatGroups(groups: seq<seq<Ref>>) returns (results: seq<seq<Ref>>)
    ensures ReadGroups(results) == Map(old(ReadGroups(groups)), Nothing())
    ensures Concatenated(results) == []
  {
    hide Concatenated, ReadGroups;
    results := [];
    OnceNothing();
    for i := 0 to |groups|
      invariant |results| == i && Concatenated(results) == []
      invariant forall j | 0 <= j < i :: results[j] == []
    {
      ConcatenatedPush(results, []);
      results := results + [[]];
    }
  }

  method TransformDeconcat(d: HeapData, keys: seq<string>) returns (r: Result<HeapData, Error>)
    ensures Agrees(r, RunStage(DECONCAT(keys), old(Read(d))))
    ensures Moves(DECONCAT(keys), d, r)
  {
    hide Concatenated, ReadList, ReadGroups, Once, TryMap, Within, GroupItems;
    OnceNothing();
    match d
    case FlatRefs(refs) =>
      var split := Deconcat(refs, keys);
      match split {
        case Err(e) => r := Err(e);
        case Ok(results) =>
          r := Ok(GroupedRefs(results));
          RefsAreFlattened(r.value);
      }
    case GroupedRefs(groups) =>
      var results := DeconcatGroups(groups);
      r := Ok(GroupedRefs(results));
      RefsAreFlattened(r.value);
  }

  method TransformGroup(d: HeapData, keys: seq<string>, skip: bool) returns (r: Result<HeapData, Error>)
    ensures Agrees(r, RunStage(GROUP(keys, skip), old(Read(d))))
    ensures Moves(GROUP(keys, skip), d, r)
  {
    hide Concatenated, ReadList, ReadGroups, Once, TryMap, Within, GroupStage;
    match FlatOf(d)
    case Err(e) => r := Err(e);
    case Ok(list) =>
      var grouped := GroupList(list, keys, skip);
      match grouped
      case Err(e) => r := Err(e);
      case Ok(groups) =>
        r := Ok(GroupedRefs(groups));
        WithinKeeps(Concatenated(groups), list);
        RefsAreFlattened(r.value);
        RefsAreFlattened(d);
  }

  method TransformLeaveOne(d: HeapData, formula: Ast, descend: bool) returns (r: Result<HeapData, Error>)
    ensures Agrees(r, RunStage(LEAVEONE(formula, descend), old(Read(d))))
    ensures Moves(LEAVEONE(formula, descend), d, r)
  {
    hide Concatenated, ReadList, ReadGroups, Once, TryMap, Within, GroupItems;
    match GroupsOf(d)
    case Err(e) => r := Err(e);
    case Ok(list) =>
      var left := LeaveOne(list, formula, descend);
      match left
      case Err(e) => r := Err(e);
      case Ok(merged) =>
        r := Ok(FlatRefs(merged));
        WithinKeeps(merged, Concatenated(list));
        RefsAreFlattened(d);
  }

  method TransformFilter(d: HeapData, filters: seq<seq<Verifier>>) returns (r: Result<HeapData, Error>)
    ensures Agrees(r, RunStage(FILTER(filters), old(Read(d))))
    ensures Moves(FILTER(filters), d, r)
  {
    hide Concatenated, ReadList, ReadGroups, Once, TryMap, Within, GroupItems, FilterItems;
    match d
    case FlatRefs(refs) =>
      var kept := FilterList(refs, filters);
      match kept {
        case Err(e) => r := Err(e);
        case Ok(list) =>
          r := Ok(FlatRefs(list));
          WithinKeeps(list, refs);
      }
    case GroupedRefs(groups) =>
      var kept := FilterGroups(groups, filters);
      match kept {
        case Err(e) => r := Err(e);
        case Ok(lists) =>
          r := Ok(GroupedRefs(lists));
          WithinKeeps(Concatenated(lists), Concatenated(groups));
          RefsAreFlattened(r.value);
          RefsAreFlattened(d);
      }
  }

  method TransformFlatten(d: HeapData, keep: bool, key: string, keepKey: bool) returns (r: Result<HeapData, Error>)
    ensures Agrees(r, RunStage(FLATTEN(keep, key, keepKey), old(Read(d))))
    ensures Moves(FLATTEN(keep, key, keepKey), d, r)
  {
    hide Concatenated, ReadList, ReadGroups, Once, TryMap, Within, GroupItems, FlattenOne, FlattenIn, PassedOn;
    match d
    case FlatRefs(refs) =>
      var flattened := FlattenList(refs, keep, key, keepKey);
      match flattened {
        case Err(e) => r := Err(e);
        case Ok(list) => r := Ok(FlatRefs(list));
      }
    case GroupedRefs(groups) =>
      var flattened := FlattenGroups(groups, keep, key, keepKey);
      match flattened {
        case Err(e) => r := Err(e);
        case Ok(lists) =>
          r := Ok(GroupedRefs(lists));
          RefsAreFlattened(d);
          RefsAreFlattened(r.value);
      }
  }

  method TransformAffine(d: HeapData, p: AffineParams) returns (r: Result<HeapData, Error>)
    requires OnceEach(d)
    modifies Refs(d)
    ensures Agrees(r, RunStage(AFFINE(p), old(Read(d))))
    ensures Moves(AFFINE(p), d, r) && Affines(d, p, r)
  {
    hide Concatenated, ReadList, ReadGroups, Once, Filter, TryMap, Within, GroupItems;
    RefsAreFlattened(d);
    match FlatOf(d)
    case Err(e) => r := Err(e);
    case Ok(list) =>
      var affined := AffineList(list, p);
      match affined
      case Err(e) => r := Err(e);
      case Ok(kept) =>
        r := Ok(FlatRefs(kept));
        WithinKeeps(kept, list);
  }

  method Transform(stage: Stage, d: HeapData) returns (r: Result<HeapData, Error>)
    requires stage.AFFINE? ==> OnceEach(d)
    modifies if stage.AFFINE? then Refs(d) else {}
    ensures Agrees(r, RunStage(stage, old(Read(d))))
    ensures Moves(stage, d, r) && (stage.AFFINE? ==> Affines(d, stage.params, r))
  {
    assert RunStage(UNKNOWN, Read(d)) == Err(NotRegistered);
    hide RunStage, Read;
    match stage
    case GROUP(keys, skip) => r := TransformGroup(d, keys, skip);
    case AFFINE(p) => r := TransformAffine(d, p);
    case LEAVEONE(formula, descend) => r := TransformLeaveOne(d, formula, descend);
    case JOIN => r := TransformJoin(d);
    case CONCAT(keys) => r := TransformConcat(d, keys);
    case DECONCAT(keys) => r := TransformDeconcat(d, keys);
    case DEGROUP(shared, targets) => r := TransformDegroup(d, shared, targets);
    case FILTER(filters) => r := TransformFilter(d, filters);
    case FLATTEN(keep, key, keepKey) => r := TransformFlatten(d, keep, key, keepKey);
    case COUNT(rules) => r := TransformCount(d, rules);
    case UNKNOWN => r := Err(NotRegistered);
  }
}
