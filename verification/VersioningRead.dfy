/** The in-memory pipeline of `genVersioningAggregation` against the database's own read. */
module VersioningRead {
  import opened Sequences
  import opened Documents
  import opened Json
  import opened Grouping
  import opened GroupKeys
  import opened Transformation

  function GenVersioningAggregation(keys: seq<string>, hasVersioning: bool): seq<Stage> {
    (if hasVersioning then []
     else [FILTER([[Verifier(Variable("dataVersion"), IsNotNull)]])])
    + (if keys == [] then []
       else [GROUP(keys, false), LEAVEONE(Variable("life.createdTime"), true),
             FILTER([[Verifier(Variable("life.deletedTime"), IsNull)]])])
  }

  // ----- the database's read ------------------------------------------------

  function TupleOf(keys: seq<string>): Item -> seq<Value> {
    (c: Item) => seq(|keys|, i requires 0 <= i < |keys| => NestedKey(c, keys[i]))
  }

  function Created(c: Item): Result<Value, Error> { Eval(Variable("life.createdTime"), ValueOf(c)) }

  function Deleted(c: Item): Result<Value, Error> { Eval(Variable("life.deletedTime"), ValueOf(c)) }

  function CreatedTime(): Item -> int {
    (c: Item) => match Created(c) case Ok(v) => (if v.Num? then v.n else 0) case Err(_) => 0
  }

  /** A match on null takes null and missing alike. */
  function NotDeleted(): Item -> bool {
    (c: Item) => Deleted(c) == Ok(Null) || Deleted(c) == Ok(Undefined)
  }

  function DatabaseRead(clips: seq<Item>, keys: seq<string>): seq<Item> {
    Filter(LatestPer(clips, TupleOf(keys), CreatedTime()), NotDeleted())
  }

  // ----- the shape of stored documents --------------------------------------

  /** Every key holds a string without '|'. */
  ghost predicate KeyShaped(c: Item, keys: seq<string>) {
    forall k | k in keys :: NestedKey(c, k).Str? && BarFree(NestedKey(c, k).s)
  }

  /** The life times are there too, and the group's text is none that every object inherits. */
  ghost predicate WellShaped(c: Item, keys: seq<string>) {
    && KeyShaped(c, keys) && IsGroupable(c, keys)
    && Created(c).Ok? && Created(c).value.Num?
    && Deleted(c).Ok? && Deleted(c).value != Undefined
  }

  ghost predicate AllWellShaped(clips: seq<Item>, keys: seq<string>) {
    forall i | 0 <= i < |clips| :: WellShaped(clips[i], keys)
  }

  lemma SplitOnce(path: string, head: string, tail: string)
    requires path == head + "." + tail && '.' !in head && '.' !in tail
    ensures Split(path) == [head, tail]
  {
    assert path[|head|] == '.';
    var i := IndexOf(path, '.');
    assert i >= |head| by { assert forall j | 0 <= j < |head| :: path[j] == head[j]; }
    assert i == |head| && path[..i] == head && path[i + 1..] == tail;
    assert Split(tail) == [tail];
  }

  lemma TwoSteps(c: Clip, inner: Clip, head: string, tail: string)
    requires '.' !in head && '.' !in tail && head in c && c[head] == Obj(inner) && tail in inner
    requires inner[tail] != Undefined
    ensures Eval(Variable(head + "." + tail), Obj(c)) == Ok(inner[tail])
  {
    SplitOnce(head + "." + tail, head, tail);
    hide Split;
    var keys := [head, tail];
    assert keys[1..] == [tail] && [tail][1..] == [];
    assert Walk(inner[tail], []) == Ok(inner[tail]);
    assert Walk(Obj(inner), [tail]) == Ok(inner[tail]);
  }

  lemma OneStep(c: Clip, key: string)
    requires '.' !in key && key in c
    ensures NestedKey(Some(c), key) == c[key]
  {
    assert Split(key) == [key] && [key][1..] == [];
    assert FindValue(c[key], []) == c[key];
  }

  lemma NestedTwoSteps(c: Clip, inner: Clip, head: string, tail: string)
    requires '.' !in head && '.' !in tail && head in c && c[head] == Obj(inner) && tail in inner
    ensures NestedKey(Some(c), head + "." + tail) == inner[tail]
  {
    SplitOnce(head + "." + tail, head, tail);
    hide Split;
    var keys := [head, tail];
    assert keys[1..] == [tail] && [tail][1..] == [];
    assert FindValue(inner[tail], []) == inner[tail];
    assert FindValue(Obj(inner), [tail]) == inner[tail];
  }

  /** A key of the clip itself, or of the properties it holds. */
  ghost predicate IsKeyOf(key: string, c: Clip, properties: Clip) {
    || ('.' !in key && key in c && IsBarFreeText(c[key]))
    || exists name | name in properties ::
         '.' !in name && key == "properties" + "." + name && IsBarFreeText(properties[name])
  }

  predicate IsBarFreeText(v: Value) { v.Str? && BarFree(v.s) }

  /** Documents as the data writers store them, grouped by field, version or property, have this shape. */
  lemma StoredClipIsWellShaped(c: Clip, keys: seq<string>, life: Clip, properties: Clip)
    requires "life" in c && c["life"] == Obj(life) && "properties" in c && c["properties"] == Obj(properties)
    requires "createdTime" in life && life["createdTime"].Num? && "deletedTime" in life
    requires life["deletedTime"] != Undefined
    requires (forall k | k in keys :: IsKeyOf(k, c, properties)) && IsGroupable(Some(c), keys)
    ensures WellShaped(Some(c), keys)
  {
    hide Eval, NestedKey, BarFree, Split, FindValue, Walk, IsGroupable;
    assert "life.createdTime" == "life" + "." + "createdTime";
    assert "life.deletedTime" == "life" + "." + "deletedTime";
    TwoSteps(c, life, "life", "createdTime");
    TwoSteps(c, life, "life", "deletedTime");
    forall k | k in keys ensures IsBarFreeText(NestedKey(Some(c), k)) {
      if '.' !in k && k in c && IsBarFreeText(c[k]) {
        OneStep(c, k);
      } else {
        var name :| name in properties && '.' !in name && k == "properties" + "." + name
                    && IsBarFreeText(properties[name]);
        NestedTwoSteps(c, properties, "properties", name);
      }
    }
  }

  lemma TextsOfTuple(c: Item, keys: seq<string>)
    requires KeyShaped(c, keys)
    ensures GroupKey(keys)(c) == Some(Joined(KeyTexts(c, keys))) && AllBarFree(KeyTexts(c, keys))
    ensures TupleOf(keys)(c) == Map(KeyTexts(c, keys), (t: string) => Str(t))
  {
    hide FindValue, Joined;
    assert forall i | 0 <= i < |keys| :: keys[i] in keys;
  }

  /** Two such clips have the same group string exactly when they have the same tuple. */
  lemma SameGroupIffSameTuple(c: Item, d: Item, keys: seq<string>)
    requires KeyShaped(c, keys) && KeyShaped(d, keys)
    ensures GroupKey(keys)(c).Some? && GroupKey(keys)(d).Some?
    ensures GroupKey(keys)(c) == GroupKey(keys)(d) <==> TupleOf(keys)(c) == TupleOf(keys)(d)
  {
    TextsOfTuple(c, keys);
    TextsOfTuple(d, keys);
    var t, u := KeyTexts(c, keys), KeyTexts(d, keys);
    if Joined(t) == Joined(u) {
      BarFreeJoinsApart(t, u);
    }
    hide GroupKey, TupleOf, KeyTexts, Joined, KeyShaped;
    if TupleOf(keys)(c) == TupleOf(keys)(d) {
      forall i | 0 <= i < |t| ensures t[i] == u[i] {
        assert Str(t[i]) == TupleOf(keys)(c)[i] == TupleOf(keys)(d)[i] == Str(u[i]);
      }
      assert t == u;
    }
  }

  lemma BarsAreNotInherited(k: string)
    requires '|' in k
    ensures k !in INHERITED
  {
  }

  lemma JoinedHasBar(parts: seq<string>)
    requires |parts| >= 2
    ensures '|' in Joined(parts)
  {
    assert Joined(parts)[|parts[0]|] == '|';
  }

  /** GROUP throws at an item exactly when its one key value has an inherited name for its text: with more keys the
      text has a bar, and without keys it is empty. */
  lemma GroupableIff(item: Item, keys: seq<string>)
    ensures IsGroupable(item, keys) <==>
              !(|keys| == 1 && NestedKey(item, keys[0]) != Undefined && Text(NestedKey(item, keys[0])) in INHERITED)
  {
    hide NestedKey, Text;
    var parts := KeyTexts(item, keys);
    assert (forall k | k in keys :: NestedKey(item, k) != Undefined) ==>
             forall i | 0 <= i < |keys| :: NestedKey(item, keys[i]) != Undefined;
    if |keys| >= 2 {
      JoinedHasBar(parts);
      BarsAreNotInherited(Joined(parts));
    } else {
      hide INHERITED;
      EmptyIsNotInherited();
    }
  }

  lemma EmptyIsNotInherited()
    ensures "" !in INHERITED
  {
  }

  /** A document of a field with the id constructor makes GROUP by field throw. */
  lemma InheritedNameThrows(c: Clip, skipUnmatch: bool)
    requires "fieldId" in c && c["fieldId"] == Str("constructor")
    ensures RunStage(GROUP(["fieldId"], skipUnmatch), Flat([Some(c)])) == Err(Failed)
  {
    OneStep(c, "fieldId");
    hide NestedKey;
    GroupableIff(Some(c), ["fieldId"]);
    assert Some(c) in [Some(c)];
  }

  // ----- LEAVEONE keeps the newest ------------------------------------------

  lemma {:induction false} TryMapOk<T, U>(s: seq<T>, f: T -> Result<U, Error>)
    requires forall i | 0 <= i < |s| :: f(s[i]).Ok?
    ensures TryMap(s, f).Ok?
  {
    if s != [] {
      assert forall i | 0 <= i < |s[1..]| :: s[1..][i] == s[i + 1];
      TryMapOk(s[1..], f);
    }
  }

  lemma {:induction false} ExtremeIsGreatest(ns: seq<int>)
    requires ns != []
    ensures Extreme(ns, true) in ns && forall n | n in ns :: n <= Extreme(ns, true)
  {
    if |ns| > 1 {
      ExtremeIsGreatest(ns[1..]);
      assert ns == [ns[0]] + ns[1..];
    }
  }

  lemma {:induction false} NumbersAt(scores: seq<Value>)
    ensures Numbers(scores).Some? <==> forall j | 0 <= j < |scores| :: ToNumber(scores[j]).Some?
    ensures Numbers(scores).Some? ==> |Numbers(scores).value| == |scores|
    ensures Numbers(scores).Some? ==>
              forall j | 0 <= j < |scores| :: ToNumber(scores[j]) == Some(Numbers(scores).value[j])
  {
    if scores != [] {
      NumbersAt(scores[1..]);
      assert forall j | 0 <= j < |scores| :: scores[j] == if j == 0 then scores[0] else scores[1..][j - 1];
    }
  }

  /** No score is better than the one at i, which is a number, all count as numbers, and those before differ. */
  ghost predicate IsFirstBest(scores: seq<Value>, isDescend: bool, i: nat) {
    && i < |scores| && scores[i].Num?
    && (forall j | 0 <= j < |scores| :: NotBetter(scores[j], scores[i].n, isDescend))
    && forall j | 0 <= j < i :: scores[j] != scores[i]
  }

  lemma BestIndexIff(scores: seq<Value>, isDescend: bool)
    ensures BestIndex(scores, isDescend).Some? ==> IsFirstBest(scores, isDescend, BestIndex(scores, isDescend).value)
    ensures forall i: nat :: IsFirstBest(scores, isDescend, i) ==> BestIndex(scores, isDescend) == Some(i)
  {
    NumbersAt(scores);
    if Numbers(scores).Some? && scores != [] {
      var ns := Numbers(scores).value;
      ExtremeIsBest(ns, isDescend);
      hide Extreme, Numbers;
      assert forall j | 0 <= j < |ns| :: ns[j] in ns;
    }
    forall i: nat | IsFirstBest(scores, isDescend, i) ensures BestIndex(scores, isDescend) == Some(i) {
      FirstBestIsFound(scores, isDescend, i);
    }
  }

  lemma FirstBestIsFound(scores: seq<Value>, isDescend: bool, i: nat)
    requires IsFirstBest(scores, isDescend, i)
    ensures BestIndex(scores, isDescend) == Some(i)
  {
    NumbersAt(scores);
    assert forall j | 0 <= j < |scores| :: NotBetter(scores[j], scores[i].n, isDescend);
    hide NotBetter, Numbers;
    BestIsExtreme(scores, isDescend, i, Numbers(scores).value);
  }

  lemma BestIsExtreme(scores: seq<Value>, isDescend: bool, i: nat, ns: seq<int>)
    requires IsFirstBest(scores, isDescend, i) && |ns| == |scores|
    requires forall j | 0 <= j < |scores| :: ToNumber(scores[j]) == Some(ns[j])
    ensures scores[i] == Num(Extreme(ns, isDescend))
  {
    ExtremeIsBest(ns, isDescend);
    hide Extreme;
    var k :| 0 <= k < |ns| && ns[k] == Extreme(ns, isDescend);
    assert NotBetter(scores[k], scores[i].n, isDescend) && ns[i] in ns;
  }

  /** LEAVEONE fails exactly where a score cannot be calculated. Otherwise it picks the first item of the best
      score, and where no score is the best one, since the group is empty or some score is no number, it leaves an
      undefined item. */
  lemma LeaveOneIsFirstBest(group: seq<Item>, formula: Ast, isDescend: bool)
    ensures var r := LeaveOneOf(group, formula, isDescend);
      && (r.Ok? <==> forall j | 0 <= j < |group| :: Eval(formula, ValueOf(group[j])).Ok?)
      && (r.Ok? ==>
            exists scores: seq<Value> :: && |scores| == |group|
              && (forall j | 0 <= j < |group| :: Eval(formula, ValueOf(group[j])) == Ok(scores[j]))
              && (forall i: nat :: IsFirstBest(scores, isDescend, i) ==> r.value == group[i])
              && ((forall i: nat :: !IsFirstBest(scores, isDescend, i)) ==> r.value == None))
  {
    hide Eval, IsFirstBest, BestIndex, TryMap;
    TryMapOkIff(group, Score(formula));
    if TryMap(group, Score(formula)).Ok? {
      var scores := TryMap(group, Score(formula)).value;
      forall j | 0 <= j < |group| ensures Eval(formula, ValueOf(group[j])) == Ok(scores[j]) {
        assert Score(formula)(group[j]) == Ok(scores[j]);
      }
      BestIndexIff(scores, isDescend);
    }
  }

  lemma {:induction false} TryMapOkIff<T, U>(s: seq<T>, f: T -> Result<U, Error>)
    ensures TryMap(s, f).Ok? <==> forall i | 0 <= i < |s| :: f(s[i]).Ok?
  {
    if s != [] {
      TryMapOkIff(s[1..], f);
      assert forall i | 0 <= i < |s| :: s[i] == if i == 0 then s[0] else s[1..][i - 1];
    }
  }

  lemma LeaveOneKeepsNewest(group: seq<Item>, keys: seq<string>)
    requires group != [] && AllWellShaped(group, keys)
    ensures var r := LeaveOneOf(group, Variable("life.createdTime"), true);
            && r.Ok? && r.value in group
            && forall i | 0 <= i < |group| :: CreatedTime()(group[i]) <= CreatedTime()(r.value)
  {
    hide Eval, Extreme, BarFree, NestedKey, TryMap, BestIndex;
    var formula := Variable("life.createdTime");
    forall i | 0 <= i < |group| ensures Score(formula)(group[i]) == Ok(Num(CreatedTime()(group[i]))) {
      assert WellShaped(group[i], keys);
    }
    TryMapOk(group, Score(formula));
    var scores := TryMap(group, Score(formula)).value;
    hide AllWellShaped, CreatedTime;
    NumbersHaveBest(scores, Map(group, CreatedTime()));
    BestIndexIff(scores, true);
  }

  lemma NumbersHaveBest(scores: seq<Value>, times: seq<int>)
    requires scores != [] && |scores| == |times|
    requires forall i | 0 <= i < |scores| :: scores[i] == Num(times[i])
    ensures BestIndex(scores, true).Some?
  {
    NumbersAt(scores);
    assert Numbers(scores).value == times;
    ExtremeIsGreatest(times);
    var j :| 0 <= j < |times| && times[j] == Extreme(times, true);
    assert scores[j] == Num(Extreme(times, true));
  }

  predicate NotBetter(score: Value, best: int, isDescend: bool) {
    ToNumber(score).Some? && if isDescend then ToNumber(score).value <= best else ToNumber(score).value >= best
  }

  lemma {:induction false} ExtremeIsBest(ns: seq<int>, greatest: bool)
    requires ns != []
    ensures Extreme(ns, greatest) in ns
    ensures forall n | n in ns :: if greatest then n <= Extreme(ns, greatest) else n >= Extreme(ns, greatest)
  {
    if |ns| > 1 {
      ExtremeIsBest(ns[1..], greatest);
      assert forall n | n in ns :: n == ns[0] || n in ns[1..];
    }
  }

  // ----- FLATTEN ------------------------------------------------------------

  /** keepFlattened keeps the clip's own values where the object has the same keys, so the flag matters exactly where
      one of them differs. */
  lemma FlattenFlagIff(c: Clip, inner: Clip, key: string, keepKey: bool)
    requires Entries(Get(c, key)) == Some(inner)
    ensures forall k | k in c && k in inner && (keepKey || k != key) ::
              && k in FlattenOf(c, true, key, keepKey) && FlattenOf(c, true, key, keepKey)[k] == c[k]
              && k in FlattenOf(c, false, key, keepKey) && FlattenOf(c, false, key, keepKey)[k] == inner[k]
    ensures FlattenOf(c, true, key, keepKey) == FlattenOf(c, false, key, keepKey)
       <==> forall k | k in c && k in inner && (keepKey || k != key) :: c[k] == inner[k]
  {
    hide Entries;
    var own, others := FlattenOf(c, true, key, keepKey), FlattenOf(c, false, key, keepKey);
    assert own.Keys == others.Keys;
    if forall k | k in c && k in inner && (keepKey || k != key) :: c[k] == inner[k] {
      assert forall k | k in own :: own[k] == others[k];
    }
  }

  // ----- FILTER -------------------------------------------------------------

  /** All formulas of the filters can be calculated for the clip. */
  predicate AllCalculated(c: Item, filters: seq<seq<Verifier>>) {
    forall i, j | 0 <= i < |filters| && 0 <= j < |filters[i]| :: Verify(c, filters[i][j]).Ok?
  }

  predicate AllHold(c: Item, vs: seq<Verifier>) { forall j | 0 <= j < |vs| :: Verify(c, vs[j]) == Ok(true) }

  predicate SomeHolds(c: Item, filters: seq<seq<Verifier>>) { exists i | 0 <= i < |filters| :: AllHold(c, filters[i]) }

  /** FILTER keeps a clip exactly when some named filter has all its verifiers hold. */
  lemma {:induction false} PassesIff(c: Item, filters: seq<seq<Verifier>>)
    requires AllCalculated(c, filters)
    ensures Passes(c, filters) == Ok(SomeHolds(c, filters))
  {
    hide Verify;
    if filters != [] {
      var rest := filters[1..];
      assert forall i | 0 <= i < |rest| :: rest[i] == filters[i + 1];
      assert filters[0] == filters[0];
      PassesIff(c, rest);
      VerifyAllIff(c, filters[0]);
      hide AllHold;
      if SomeHolds(c, rest) {
        var i :| 0 <= i < |rest| && AllHold(c, rest[i]);
        assert AllHold(c, filters[i + 1]);
      }
      if SomeHolds(c, filters) {
        var i :| 0 <= i < |filters| && AllHold(c, filters[i]);
        assert i > 0 ==> AllHold(c, rest[i - 1]);
      }
    }
  }

  lemma {:induction false} VerifyAllIff(c: Item, vs: seq<Verifier>)
    requires forall j | 0 <= j < |vs| :: Verify(c, vs[j]).Ok?
    ensures VerifyAll(c, vs) == Ok(AllHold(c, vs))
  {
    hide Verify;
    if vs != [] {
      var rest := vs[1..];
      assert forall j | 0 <= j < |rest| :: rest[j] == vs[j + 1];
      VerifyAllIff(c, rest);
      assert AllHold(c, rest) <==> forall j | 1 <= j < |vs| :: Verify(c, vs[j]) == Ok(true) by {
        assert forall j | 1 <= j < |vs| :: vs[j] == rest[j - 1];
      }
      var first := Verify(c, vs[0]).value;
      assert Verify(c, vs[0]) == Ok(first);
      assert AllHold(c, vs) <==> first && AllHold(c, rest);
    }
  }

  // ----- the pipeline -------------------------------------------------------

  function KeyedGroups(clips: seq<Item>, keys: seq<string>): seq<Group<Item>> { GroupUp(clips, GroupKey(keys)) }

  /** GROUP throws exactly where an item's text is an inherited name, and otherwise is a partition: nothing is lost or
      repeated, groups of keyed items are the items of one key string, and the others stand alone. */
  lemma GroupIsPartition(clips: seq<Item>, keys: seq<string>, skipUnmatch: bool)
    ensures RunStage(GROUP(keys, skipUnmatch), Flat(clips))
         == if forall c | c in clips :: IsGroupable(c, keys) then Ok(Grouped(GroupItems(clips, keys, skipUnmatch)))
            else Err(Failed)
    ensures var gs := KeyedGroups(clips, keys);
            && KeysDistinct(gs) && GroupsHold(gs, clips, GroupKey(keys))
            && multiset(Concatenated(Items(gs))) == multiset(Filter(clips, HasSomeKey(GroupKey(keys))))
    ensures skipUnmatch ==> GroupItems(clips, keys, skipUnmatch) == Items(KeyedGroups(clips, keys))
    ensures !skipUnmatch ==> multiset(Concatenated(GroupItems(clips, keys, skipUnmatch))) == multiset(clips)
  {
    GroupUpSpec(clips, GroupKey(keys));
    GroupUpBag(clips, GroupKey(keys));
    hide GroupUp, IsGroupable, HasKeys;
    if !skipUnmatch {
      var gs, alone := Items(KeyedGroups(clips, keys)), Filter(clips, Unkeyed(keys));
      ConcatenatedAppend(gs, Map(alone, Alone()));
      ConcatenatedAlone(alone);
      FilterSplits(clips, HasSomeKey(GroupKey(keys)), Unkeyed(keys));
    }
  }

  /** The number a COUNT put into a clip. */
  function Counted(): Item -> int {
    (c: Item) => if c.Some? && Get(c.value, "count").Num? then Get(c.value, "count").n else 0
  }

  /** COUNT after GROUP accounts for every item: one count per group, and together they are all the items. */
  lemma GroupThenCount(clips: seq<Item>, keys: seq<string>)
    requires forall c | c in clips :: IsGroupable(c, keys)
    ensures var r := Compose([GROUP(keys, false), COUNT([])], Flat(clips));
      r.Ok? && r.value.Flat? && |r.value.items| == |GroupItems(clips, keys, false)|
      && Sum(r.value.items, Counted()) == |clips|
  {
    var groups := GroupItems(clips, keys, false);
    var counts := CountsOf(groups);
    GroupIsPartition(clips, keys, false);
    hide RunStage, GroupItems;
    assert [GROUP(keys, false), COUNT([])][1..] == [COUNT([])] && [COUNT([])][1..] == [];
    assert Compose([COUNT([])], Grouped(groups)) == Ok(Flat(counts));
    assert Compose([GROUP(keys, false), COUNT([])], Flat(clips)) == Ok(Flat(counts));
    hide Compose, IsGroupable;
    SumOfLengths(groups, counts);
    assert |multiset(clips)| == |clips| && |multiset(Concatenated(groups))| == |Concatenated(groups)|;
  }

  lemma CountsOf(groups: seq<seq<Item>>) returns (counts: seq<Item>)
    ensures RunStage(COUNT([]), Grouped(groups)) == Ok(Flat(counts)) && |counts| == |groups|
    ensures forall i | 0 <= i < |groups| :: Counted()(counts[i]) == |groups[i]|
  {
    TryMapOk(groups, CountIn([]));
    counts := TryMap(groups, CountIn([])).value;
    hide RunStage, TryMap;
    forall i | 0 <= i < |groups| ensures Counted()(counts[i]) == |groups[i]| {
      assert CountIn([])(groups[i]) == Ok(counts[i]);
    }
  }

  lemma {:induction false} SumOfLengths(groups: seq<seq<Item>>, counts: seq<Item>)
    requires |counts| == |groups| && forall i | 0 <= i < |groups| :: Counted()(counts[i]) == |groups[i]|
    ensures Sum(counts, Counted()) == |Concatenated(groups)|
  {
    if groups != [] {
      assert forall i | 0 <= i < |groups| - 1 :: counts[1..][i] == counts[i + 1] && groups[1..][i] == groups[i + 1];
      SumOfLengths(groups[1..], counts[1..]);
    }
  }

  lemma {:induction false} ConcatenatedAlone(clips: seq<Item>)
    ensures Concatenated(Map(clips, Alone())) == clips
  {
    if clips != [] {
      assert Map(clips, Alone())[1..] == Map(clips[1..], Alone());
      ConcatenatedAlone(clips[1..]);
    }
  }

  lemma {:induction false} FilterSplits<T>(s: seq<T>, p: T -> bool, q: T -> bool)
    requires forall i | 0 <= i < |s| :: p(s[i]) != q(s[i])
    ensures multiset(Filter(s, p)) + multiset(Filter(s, q)) == multiset(s)
  {
    if s != [] {
      assert forall i | 0 <= i < |s[1..]| :: s[1..][i] == s[i + 1];
      FilterSplits(s[1..], p, q);
      assert s == [s[0]] + s[1..];
    }
  }

  function Newest(): seq<Item> -> Result<Item, Error> { LeaveOneIn(Variable("life.createdTime"), true) }

  function AliveFilter(): seq<seq<Verifier>> { [[Verifier(Variable("life.deletedTime"), IsNull)]] }

  lemma AllKeyed(clips: seq<Item>, keys: seq<string>)
    requires AllWellShaped(clips, keys)
    ensures Filter(clips, Unkeyed(keys)) == []
  {
    hide Created, Deleted, NestedKey, Filter;
    forall i | 0 <= i < |clips| ensures !Unkeyed(keys)(clips[i]) {
      assert WellShaped(clips[i], keys);
    }
    FilterNone(clips, Unkeyed(keys));
  }

  lemma GroupStage(clips: seq<Item>, keys: seq<string>)
    requires AllWellShaped(clips, keys)
    ensures RunStage(GROUP(keys, false), Flat(clips)) == Ok(Grouped(Items(KeyedGroups(clips, keys))))
  {
    GroupIsPartition(clips, keys, false);
    forall c | c in clips ensures IsGroupable(c, keys) {
      assert forall i | 0 <= i < |clips| :: WellShaped(clips[i], keys);
    }
    hide GroupUp, AllWellShaped, Filter, Items, IsGroupable, RunStage;
    AllKeyed(clips, keys);
    assert Map<Item, seq<Item>>([], Alone()) == [];
    assert GroupItems(clips, keys, false) == Items(KeyedGroups(clips, keys)) + [] == Items(KeyedGroups(clips, keys));
  }

  /** The groups of keyed clips are not empty and hold well-shaped clips only. */
  lemma GroupsWellShaped(clips: seq<Item>, keys: seq<string>, i: nat)
    requires AllWellShaped(clips, keys) && i < |KeyedGroups(clips, keys)|
    ensures var g := KeyedGroups(clips, keys)[i].items;
            g != [] && AllWellShaped(g, keys) && forall c | c in g :: c in clips
  {
    hide GroupUp, WellShaped;
    GroupUpSpec(clips, GroupKey(keys));
    var g := KeyedGroups(clips, keys)[i];
    forall j | 0 <= j < |g.items| ensures WellShaped(g.items[j], keys) && g.items[j] in clips {
      FilterMember(clips, Keyed(GroupKey(keys), g.key), g.items[j]);
    }
  }

  function Winners(clips: seq<Item>, keys: seq<string>): Result<seq<Item>, Error> {
    TryMap(Items(KeyedGroups(clips, keys)), Newest())
  }

  /** Winner i is the newest clip of group i. */
  ghost predicate WinsGroup(clips: seq<Item>, keys: seq<string>, i: nat, w: Item)
    requires i < |KeyedGroups(clips, keys)|
  {
    var g := KeyedGroups(clips, keys)[i];
    && w in clips && GroupKey(keys)(w) == Some(g.key)
    && forall c | c in clips && GroupKey(keys)(c) == Some(g.key) :: CreatedTime()(c) <= CreatedTime()(w)
  }

  lemma WinnersWin(clips: seq<Item>, keys: seq<string>)
    requires AllWellShaped(clips, keys)
    ensures Winners(clips, keys).Ok? && |Winners(clips, keys).value| == |KeyedGroups(clips, keys)|
    ensures forall i | 0 <= i < |KeyedGroups(clips, keys)| :: WinsGroup(clips, keys, i, Winners(clips, keys).value[i])
  {
    hide KeyedGroups, AllWellShaped, WinsGroup, TryMap, Newest;
    var gs := KeyedGroups(clips, keys);
    forall i | 0 <= i < |gs|
      ensures Newest()(Items(gs)[i]).Ok? && WinsGroup(clips, keys, i, Newest()(Items(gs)[i]).value)
    {
      GroupWinner(clips, keys, i);
    }
    TryMapOk(Items(gs), Newest());
  }

  lemma GroupWinner(clips: seq<Item>, keys: seq<string>, i: nat)
    requires AllWellShaped(clips, keys) && i < |KeyedGroups(clips, keys)|
    ensures var r := Newest()(KeyedGroups(clips, keys)[i].items);
            r.Ok? && WinsGroup(clips, keys, i, r.value)
  {
    hide KeyedGroups, AllWellShaped, WinsGroup, LeaveOneOf, CreatedTime;
    GroupsWellShaped(clips, keys, i);
    LeaveOneKeepsNewest(KeyedGroups(clips, keys)[i].items, keys);
    WinnerOfGroup(clips, keys, i, Newest()(KeyedGroups(clips, keys)[i].items).value);
  }

  lemma WinnerOfGroup(clips: seq<Item>, keys: seq<string>, i: nat, w: Item)
    requires i < |KeyedGroups(clips, keys)|
    requires var g := KeyedGroups(clips, keys)[i].items;
             w in g && forall j | 0 <= j < |g| :: CreatedTime()(g[j]) <= CreatedTime()(w)
    ensures WinsGroup(clips, keys, i, w)
  {
    hide GroupUp, GroupKey, CreatedTime;
    GroupUpSpec(clips, GroupKey(keys));
    var g := KeyedGroups(clips, keys)[i];
    FilterMember(clips, Keyed(GroupKey(keys), g.key), w);
    forall c | c in clips && GroupKey(keys)(c) == Some(g.key) ensures CreatedTime()(c) <= CreatedTime()(w) {
      FilterMember(clips, Keyed(GroupKey(keys), g.key), c);
      var j :| 0 <= j < |g.items| && g.items[j] == c;
    }
  }

  lemma TuplesAreGroups(clips: seq<Item>, keys: seq<string>, c: Item, d: Item)
    requires AllWellShaped(clips, keys) && c in clips && d in clips
    ensures GroupKey(keys)(c).Some?
    ensures GroupKey(keys)(c) == GroupKey(keys)(d) <==> TupleOf(keys)(c) == TupleOf(keys)(d)
  {
    hide KeyShaped, GroupKey, TupleOf;
    SameGroupIffSameTuple(c, d, keys);
  }

  lemma WinnerIsLatest(clips: seq<Item>, keys: seq<string>, i: nat, w: Item)
    requires AllWellShaped(clips, keys) && i < |KeyedGroups(clips, keys)| && WinsGroup(clips, keys, i, w)
    ensures IsLatest(clips, TupleOf(keys), CreatedTime(), w)
  {
    hide KeyedGroups, AllWellShaped, GroupKey, TupleOf, CreatedTime;
    forall e | e in clips && TupleOf(keys)(e) == TupleOf(keys)(w) ensures CreatedTime()(e) <= CreatedTime()(w) {
      TuplesAreGroups(clips, keys, e, w);
    }
  }

  lemma LatestWins(clips: seq<Item>, keys: seq<string>, d: Item) returns (i: nat)
    requires AllWellShaped(clips, keys) && DistinctTimes(clips, TupleOf(keys), CreatedTime())
    requires IsLatest(clips, TupleOf(keys), CreatedTime(), d)
    ensures i < |KeyedGroups(clips, keys)| && forall w | WinsGroup(clips, keys, i, w) :: w == d
  {
    hide AllWellShaped, GroupKey, TupleOf, CreatedTime, DistinctTimes, GroupUp, Filter;
    TuplesAreGroups(clips, keys, d, d);
    var k := GroupKey(keys)(d).value;
    GroupUpSpec(clips, GroupKey(keys));
    FilterMember(clips, Keyed(GroupKey(keys), k), d);
    i :| 0 <= i < |KeyedGroups(clips, keys)| && KeyedGroups(clips, keys)[i].key == k;
    forall w | WinsGroup(clips, keys, i, w) ensures w == d {
      TuplesAreGroups(clips, keys, w, d);
      SameTime(clips, keys, w, d);
    }
  }

  /** The winners are exactly the newest clips of each tuple. */
  lemma WinnersMember(clips: seq<Item>, keys: seq<string>, d: Item)
    requires AllWellShaped(clips, keys) && DistinctTimes(clips, TupleOf(keys), CreatedTime())
    ensures Winners(clips, keys).Ok?
    ensures d in Winners(clips, keys).value <==> IsLatest(clips, TupleOf(keys), CreatedTime(), d)
  {
    hide KeyedGroups, AllWellShaped, WinsGroup, Winners, IsLatest, DistinctTimes;
    WinnersWin(clips, keys);
    var ws := Winners(clips, keys).value;
    if d in ws {
      var i :| 0 <= i < |ws| && ws[i] == d;
      WinnerIsLatest(clips, keys, i, d);
    }
    if IsLatest(clips, TupleOf(keys), CreatedTime(), d) {
      var i := LatestWins(clips, keys, d);
      assert ws[i] == d;
    }
  }

  lemma SameTime(clips: seq<Item>, keys: seq<string>, c: Item, d: Item)
    requires DistinctTimes(clips, TupleOf(keys), CreatedTime()) && c in clips && d in clips
    requires CreatedTime()(c) == CreatedTime()(d) && TupleOf(keys)(c) == TupleOf(keys)(d)
    ensures c == d
  {
    hide CreatedTime, TupleOf;
    var i :| 0 <= i < |clips| && clips[i] == c;
    var j :| 0 <= j < |clips| && clips[j] == d;
    assert i == j;
  }

  lemma WinnersDistinct(clips: seq<Item>, keys: seq<string>)
    requires AllWellShaped(clips, keys)
    ensures Winners(clips, keys).Ok? && Distinct(Winners(clips, keys).value)
  {
    hide GroupUp, GroupKey, CreatedTime, Winners;
    WinnersWin(clips, keys);
    GroupUpSpec(clips, GroupKey(keys));
    var gs, ws := KeyedGroups(clips, keys), Winners(clips, keys).value;
    forall i, j | 0 <= i < j < |ws| ensures ws[i] != ws[j] {
      assert WinsGroup(clips, keys, i, ws[i]) && WinsGroup(clips, keys, j, ws[j]);
      assert gs[i].key != gs[j].key;
    }
  }

  lemma {:induction false} AliveStage(clips: seq<Item>, keys: seq<string>)
    requires AllWellShaped(clips, keys)
    ensures FilterItems(clips, AliveFilter()) == Ok(Filter(clips, NotDeleted()))
  {
    hide Eval;
    if clips != [] {
      assert WellShaped(clips[0], keys);
      assert AllWellShaped(clips[1..], keys) by {
        assert forall i | 0 <= i < |clips[1..]| :: clips[1..][i] == clips[i + 1];
      }
      AliveStage(clips[1..], keys);
      var v := Verifier(Variable("life.deletedTime"), IsNull);
      assert AliveFilter() == [[v]] && [v][1..] == [] && [[v]][1..] == [];
      assert VerifyAll(clips[0], [v]) == Verify(clips[0], v);
      assert Passes(clips[0], AliveFilter()) == Verify(clips[0], v);
    }
  }

  lemma ComposeThree(a: Stage, b: Stage, c: Stage, d0: Data, d1: Data, d2: Data)
    requires RunStage(a, d0) == Ok(d1) && RunStage(b, d1) == Ok(d2)
    ensures Compose([a, b, c], d0) == RunStage(c, d2)
  {
    hide RunStage;
    assert [a, b, c][1..] == [b, c] && [b, c][1..] == [c] && [c][1..] == [];
    assert Compose([c], d2) == RunStage(c, d2);
    assert Compose([b, c], d1) == Compose([c], d2);
  }

  lemma PipelineResult(clips: seq<Item>, keys: seq<string>)
    requires keys != [] && AllWellShaped(clips, keys)
    ensures Winners(clips, keys).Ok?
    ensures Compose(GenVersioningAggregation(keys, true), Flat(clips))
         == Ok(Flat(Filter(Winners(clips, keys).value, NotDeleted())))
  {
    var ws := Winners(clips, keys);
    WinnersWin(clips, keys);
    GroupStage(clips, keys);
    var gs := Items(KeyedGroups(clips, keys));
    var a, b, c := GROUP(keys, false), LEAVEONE(Variable("life.createdTime"), true), FILTER(AliveFilter());
    assert RunStage(b, Grouped(gs)) == Ok(Flat(ws.value));
    forall i | 0 <= i < |ws.value| ensures WellShaped(ws.value[i], keys) {
      assert WinsGroup(clips, keys, i, ws.value[i]);
    }
    AliveStage(ws.value, keys);
    ComposeThree(a, b, c, Flat(clips), Grouped(gs), Flat(ws.value));
    assert GenVersioningAggregation(keys, true) == [a, b, c];
  }

  /** Grouping, keeping the newest and dropping tombstones in memory gives the clips that the
      database's sort, group and match give. */
  lemma VersioningIsDatabaseRead(clips: seq<Item>, keys: seq<string>)
    requires keys != [] && AllWellShaped(clips, keys) && DistinctTimes(clips, TupleOf(keys), CreatedTime())
    ensures var r := Compose(GenVersioningAggregation(keys, true), Flat(clips));
            r.Ok? && r.value.Flat? && multiset(r.value.items) == multiset(DatabaseRead(clips, keys))
  {
    hide Winners, Compose, GenVersioningAggregation, NotDeleted, WellShaped, TupleOf, CreatedTime;
    PipelineResult(clips, keys);
    var ws, latest := Winners(clips, keys).value, LatestPer(clips, TupleOf(keys), CreatedTime());
    WinnersDistinct(clips, keys);
    LatestPerKeys(clips, TupleOf(keys), CreatedTime());
    DistinctByKey(latest, TupleOf(keys));
    FilterDistinct(ws, NotDeleted());
    FilterDistinct(latest, NotDeleted());
    forall d ensures d in Filter(ws, NotDeleted()) <==> d in DatabaseRead(clips, keys) {
      WinnersMember(clips, keys, d);
      LatestPerMember(clips, TupleOf(keys), CreatedTime(), d);
      FilterMember(ws, NotDeleted(), d);
      FilterMember(latest, NotDeleted(), d);
    }
    DistinctSameMembers(Filter(ws, NotDeleted()), DatabaseRead(clips, keys));
  }

  lemma DistinctByKey<T, K>(s: seq<T>, key: T -> K)
    requires Distinct(Map(s, key))
    ensures Distinct(s)
  {
    forall i, j | 0 <= i < j < |s| ensures s[i] != s[j] {
      assert Map(s, key)[i] != Map(s, key)[j];
    }
  }

  // ----- rows without their life times --------------------------------------

  lemma CreatedPath()
    ensures Split("life.createdTime") == ["life", "createdTime"]
  {
    assert "life.createdTime" == "life" + "." + "createdTime";
    SplitOnce("life.createdTime", "life", "createdTime");
  }

  /** Where the creation time is looked up. */
  lemma CreatedOf(c: Clip)
    ensures Created(Some(c))
         == if "life" in c && c["life"] != Undefined then Walk(c["life"], ["createdTime"]) else Ok(Undefined)
  {
    CreatedPath();
    hide Split;
    var keys := ["life", "createdTime"];
    assert keys[1..] == ["createdTime"];
    assert Created(Some(c)) == Walk(Obj(c), keys);
  }

  ghost predicate Timed(c: Item) { Created(c).Ok? && Created(c).value.Num? }

  /** The creation time can be read and is a number, or nothing that counts as one. */
  ghost predicate Scored(c: Item) {
    Created(c).Ok? && (Created(c).value.Num? || ToNumber(Created(c).value) == None)
  }

  lemma LifelessIsScored(c: Clip)
    requires "life" !in c
    ensures Scored(Some(c)) && !Timed(Some(c))
  {
    CreatedOf(c);
    hide Created;
  }

  lemma UndefinedHasNoTime()
    ensures Created(None) == Err(Failed)
  {
    CreatedPath();
    hide Split;
    assert Walk(Undefined, ["life", "createdTime"]) == Err(Failed);
  }

  /** Of a group with an item without creation time nothing is left but an undefined item; of the others an item. */
  lemma NewestIsUndefinedIff(group: seq<Item>)
    requires group != [] && forall c | c in group :: Scored(c)
    ensures Newest()(group).Ok? && (Newest()(group).value == None <==> exists c :: c in group && !Timed(c))
    ensures Newest()(group).value != None ==> Newest()(group).value in group
  {
    hide Eval, TryMap, ToNumber, BestIndex;
    var formula := Variable("life.createdTime");
    forall i | 0 <= i < |group| ensures Score(formula)(group[i]).Ok? { assert Scored(group[i]); }
    TryMapOk(group, Score(formula));
    var scores := TryMap(group, Score(formula)).value;
    forall i | 0 <= i < |group| ensures Created(group[i]) == Ok(scores[i]) {
      assert Score(formula)(group[i]) == Ok(scores[i]);
    }
    BestIndexIff(scores, true);
    if i :| 0 <= i < |group| && !Timed(group[i]) {
      assert Scored(group[i]);
      assert forall k: nat :: IsFirstBest(scores, true, k) ==> NotBetter(scores[i], scores[k].n, true);
    } else {
      forall i | 0 <= i < |group| ensures scores[i].Num? { assert Timed(group[i]); }
      NumbersHaveBest(scores, Map(scores, NumberIn()));
      UndefinedHasNoTime();
    }
  }

  function NumberIn(): Value -> int { (v: Value) => if v.Num? then v.n else 0 }

  lemma GroupsNotEmpty(clips: seq<Item>, keys: seq<string>, i: nat)
    requires i < |GroupItems(clips, keys, false)|
    ensures GroupItems(clips, keys, false)[i] != []
  {
    hide GroupUp, HasKeys;
    GroupUpSpec(clips, GroupKey(keys));
    var gs, alone := KeyedGroups(clips, keys), Filter(clips, Unkeyed(keys));
    if i >= |gs| { assert GroupItems(clips, keys, false)[i] == [alone[i - |gs|]]; }
  }

  lemma GroupedItems(clips: seq<Item>, keys: seq<string>)
    ensures var groups := GroupItems(clips, keys, false);
            && (forall i | 0 <= i < |groups| :: groups[i] != [])
            && forall c :: c in Concatenated(groups) <==> c in clips
  {
    var groups := GroupItems(clips, keys, false);
    forall i | 0 <= i < |groups| ensures groups[i] != [] { GroupsNotEmpty(clips, keys, i); }
    GroupIsPartition(clips, keys, false);
    forall c ensures c in Concatenated(groups) <==> c in clips {
      assert c in multiset(Concatenated(groups)) <==> c in multiset(clips);
    }
  }

  function NewestStages(keys: seq<string>): seq<Stage> {
    [GROUP(keys, false)] + [LEAVEONE(Variable("life.createdTime"), true)]
  }

  /** Grouping and keeping the newest does not fail on items without creation time: it leaves one item for each group,
      which is undefined exactly when the group holds such an item. */
  lemma NewestLeavesUndefined(clips: seq<Item>, keys: seq<string>) returns (left: seq<Item>)
    requires forall c | c in clips :: Scored(c) && IsGroupable(c, keys)
    ensures Compose(NewestStages(keys), Flat(clips)) == Ok(Flat(left))
    ensures var groups := GroupItems(clips, keys, false);
      |left| == |groups| && forall i | 0 <= i < |groups| :: left[i] == None <==> exists c :: c in groups[i] && !Timed(c)
  {
    var groups := GroupItems(clips, keys, false);
    var a, b := GROUP(keys, false), LEAVEONE(Variable("life.createdTime"), true);
    GroupIsPartition(clips, keys, false);
    GroupedItems(clips, keys);
    LeaveOneStage(groups);
    hide RunStage, GroupItems, Concatenated, TryMap, Scored, Timed, Newest, Compose, IsGroupable;
    forall i | 0 <= i < |groups|
      ensures Newest()(groups[i]).Ok?
      ensures Newest()(groups[i]).value == None <==> exists c :: c in groups[i] && !Timed(c)
    {
      forall c | c in groups[i] ensures Scored(c) { InConcatenated(groups, i, c); }
      NewestIsUndefinedIff(groups[i]);
    }
    TryMapOk(groups, Newest());
    left := TryMap(groups, Newest()).value;
    ComposeCons(a, [b], Flat(clips));
    ComposeCons(b, [], Grouped(groups));
    ComposeNothing(Flat(left));
    assert [b] + [] == [b];
  }

  lemma LeaveOneStage(groups: seq<seq<Item>>)
    ensures RunStage(LEAVEONE(Variable("life.createdTime"), true), Grouped(groups))
         == AsFlatData(TryMap(groups, Newest()))
  {
  }

  lemma ComposeNothing(d: Data)
    ensures Compose([], d) == Ok(d)
  {
  }

  lemma ComposeCons(first: Stage, rest: seq<Stage>, d: Data)
    ensures RunStage(first, d).Ok? ==> Compose([first] + rest, d) == Compose(rest, RunStage(first, d).value)
    ensures RunStage(first, d).Err? ==> Compose([first] + rest, d) == Err(RunStage(first, d).error)
  {
    assert ([first] + rest)[1..] == rest;
  }

  lemma {:induction false} ComposeAppend(a: seq<Stage>, b: seq<Stage>, v: Data)
    ensures Compose(a, v).Ok? ==> Compose(a + b, v) == Compose(b, Compose(a, v).value)
    ensures Compose(a, v).Err? ==> Compose(a + b, v) == Err(Compose(a, v).error)
    decreases a
  {
    hide RunStage;
    if a == [] {
      assert a + b == b;
    } else {
      assert (a + b)[1..] == a[1..] + b;
      if RunStage(a[0], v).Ok? { ComposeAppend(a[1..], b, RunStage(a[0], v).value); }
    }
  }

  // ----- stages after an undefined item -------------------------------------

  lemma {:induction false} FilterOkIff(items: seq<Item>, filters: seq<seq<Verifier>>)
    ensures FilterItems(items, filters).Ok? <==> forall i | 0 <= i < |items| :: Passes(items[i], filters).Ok?
  {
    hide Passes;
    if items != [] {
      FilterOkIff(items[1..], filters);
      assert forall i | 0 <= i < |items| :: items[i] == if i == 0 then items[0] else items[1..][i - 1];
    }
  }

  predicate TakesLists(stage: Stage) {
    stage.GROUP? || stage.AFFINE? || stage.FLATTEN? || stage.FILTER? || stage.DECONCAT? || stage.DEGROUP?
  }

  /** The stage reads a key of an undefined item of a list. */
  predicate ReadsUndefined(stage: Stage) {
    match stage
    case AFFINE(_) => true
    case FLATTEN(_, _, _) => true
    case FILTER(filters) => Passes(None, filters).Err?
    case DECONCAT(keys) => keys != []
    case DEGROUP(shared, targets) => exists t | t in targets :: shared != [] || t != []
    case _ => false
  }

  function IsDefined(): Item -> bool { (item: Item) => item.Some? }

  lemma DefinedAt(items: seq<Item>, i: nat) returns (j: nat)
    requires i < |items| && items[i].Some?
    ensures j < |Filter(items, IsDefined())| && Filter(items, IsDefined())[j] == items[i]
  {
    FilterMember(items, IsDefined(), items[i]);
    var kept := Filter(items, IsDefined());
    j :| 0 <= j < |kept| && kept[j] == items[i];
  }

  lemma TryMapUndefined<U>(items: seq<Item>, f: Item -> Result<U, Error>)
    requires None in items && TryMap(Filter(items, IsDefined()), f).Ok?
    ensures TryMap(items, f).Err? <==> f(None).Err?
  {
    TryMapOkIff(items, f);
    TryMapOkIff(Filter(items, IsDefined()), f);
    forall i | 0 <= i < |items| && items[i].Some? ensures f(items[i]).Ok? { var j := DefinedAt(items, i); }
  }

  lemma FilterUndefined(items: seq<Item>, filters: seq<seq<Verifier>>)
    requires None in items && FilterItems(Filter(items, IsDefined()), filters).Ok?
    ensures FilterItems(items, filters).Err? <==> Passes(None, filters).Err?
  {
    FilterOkIff(items, filters);
    FilterOkIff(Filter(items, IsDefined()), filters);
    forall i | 0 <= i < |items| && items[i].Some? ensures Passes(items[i], filters).Ok? {
      var j := DefinedAt(items, i);
    }
  }

  /** A stage that the other items of the list pass fails on an undefined one exactly when it reads it. */
  lemma UndefinedItemFailsIff(stage: Stage, items: seq<Item>)
    requires None in items && TakesLists(stage) && RunStage(stage, Flat(Filter(items, IsDefined()))).Ok?
    ensures RunStage(stage, Flat(items)).Err? <==> ReadsUndefined(stage)
  {
    hide TryMap, FilterItems, Passes, Filter;
    match stage
    case GROUP(keys, skip) => UndefinedIsGroupable(items, keys);
    case AFFINE(p) => TryMapUndefined(items, AffineOne(p));
    case FLATTEN(keep, key, keepKey) => TryMapUndefined(items, FlattenOne(keep, key, keepKey));
    case FILTER(filters) => FilterUndefined(items, filters);
    case DECONCAT(keys) => TryMapUndefined(items, DeconcatOne(keys));
    case DEGROUP(shared, targets) => TryMapUndefined(items, DegroupOne(shared, targets));
  }

  lemma UndefinedIsGroupable(items: seq<Item>, keys: seq<string>)
    requires forall item | item in Filter(items, IsDefined()) :: IsGroupable(item, keys)
    ensures forall item | item in items :: IsGroupable(item, keys)
  {
    forall item | item in items ensures IsGroupable(item, keys) {
      FilterMember(items, IsDefined(), item);
      if item == None { GroupableIff(None, keys); }
    }
  }

  lemma {:induction false} SameWithoutUndefined(items: seq<Item>, keys: seq<string>)
    requires keys != []
    ensures GroupUp(items, GroupKey(keys)) == GroupUp(Filter(items, IsDefined()), GroupKey(keys))
  {
    if items != [] {
      var front, last := items[..|items| - 1], items[|items| - 1];
      assert items == front + [last];
      SameWithoutUndefined(front, keys);
      FilterConcat(front, [last], IsDefined());
      var kept := Filter(front, IsDefined());
      if last == None {
        assert NestedKey(None, keys[0]) == Undefined && keys[0] in keys;
        assert Filter(items, IsDefined()) == kept;
      } else {
        assert Filter(items, IsDefined()) == kept + [last] && (kept + [last])[..|kept|] == kept;
      }
    }
  }

  /** A GROUP that skips what it cannot match drops undefined items in silence. */
  lemma GroupDropsUndefined(items: seq<Item>, keys: seq<string>)
    requires keys != []
    ensures RunStage(GROUP(keys, true), Flat(items)) == RunStage(GROUP(keys, true), Flat(Filter(items, IsDefined())))
  {
    var kept := Filter(items, IsDefined());
    SameWithoutUndefined(items, keys);
    forall item ensures item in kept <==> item in items && item.Some? { FilterMember(items, IsDefined(), item); }
    assert NestedKey(None, keys[0]) == Undefined && keys[0] in keys;
    assert IsGroupable(None, keys);
    hide GroupUp, IsGroupable;
  }

  // ----- rows without their life times --------------------------------------

  ghost predicate NoLife(rows: seq<Clip>) { forall c | c in rows :: "life" !in c }

  function Rows(rows: seq<Clip>): seq<Item> { Map(rows, Defined()) }

  lemma RowsScored(rows: seq<Clip>)
    requires NoLife(rows)
    ensures forall c | c in Rows(rows) :: c.Some? && Scored(c) && !Timed(c)
  {
    forall c | c in Rows(rows) ensures c.Some? && Scored(c) && !Timed(c) {
      var i :| 0 <= i < |rows| && Rows(rows)[i] == c;
      LifelessIsScored(rows[i]);
    }
  }

  /** Rows without their life: grouping and keeping the newest gives one undefined item for each group. */
  lemma RowsLeaveUndefined(rows: seq<Clip>, keys: seq<string>)
    requires NoLife(rows) && forall c | c in Rows(rows) :: IsGroupable(c, keys)
    ensures Compose(NewestStages(keys), Flat(Rows(rows)))
         == Ok(Flat(seq(|GroupItems(Rows(rows), keys, false)|, i => None)))
  {
    RowsScored(rows);
    GroupedItems(Rows(rows), keys);
    var groups := GroupItems(Rows(rows), keys, false);
    hide Scored, Timed, IsGroupable, Compose, GroupItems, NewestStages, Concatenated;
    var left := NewestLeavesUndefined(Rows(rows), keys);
    forall i | 0 <= i < |groups| ensures left[i] == None {
      var c := groups[i][0];
      InConcatenated(groups, i, c);
    }
    assert left == seq(|groups|, i => None);
  }

  function LeftToGroup(rows: seq<Clip>, hasVersioning: bool): seq<Clip> {
    if hasVersioning then rows else Filter(rows, Versioned())
  }

  function Versioned(): Clip -> bool { (c: Clip) => Get(c, "dataVersion") != Null }

  function VersionedFilter(): seq<seq<Verifier>> { [[Verifier(Variable("dataVersion"), IsNotNull)]] }

  lemma VersionedPasses(c: Clip)
    ensures Passes(Some(c), VersionedFilter()) == Ok(Versioned()(c))
  {
    ReadKey(c, "dataVersion");
    hide Eval;
    var v := Verifier(Variable("dataVersion"), IsNotNull);
    assert [v][1..] == [] && [[v]][1..] == [];
    assert VerifyAll(Some(c), [v]) == Verify(Some(c), v);
    assert VersionedFilter() == [[v]];
  }

  lemma RowsCons(first: Clip, rest: seq<Clip>)
    ensures Rows([first] + rest) == [Some(first)] + Rows(rest)
  {
  }

  lemma FilterCons(first: Item, rest: seq<Item>, filters: seq<seq<Verifier>>)
    requires Passes(first, filters).Ok? && FilterItems(rest, filters).Ok?
    ensures FilterItems([first] + rest, filters)
         == Ok(if Passes(first, filters).value then [first] + FilterItems(rest, filters).value
               else FilterItems(rest, filters).value)
  {
    assert ([first] + rest)[1..] == rest;
  }

  lemma {:induction false} VersionedStage(rows: seq<Clip>)
    ensures FilterItems(Rows(rows), VersionedFilter()) == Ok(Rows(Filter(rows, Versioned())))
  {
    if rows != [] {
      VersionedStage(rows[1..]);
      VersionedPasses(rows[0]);
      hide Passes, VersionedFilter, Versioned, Rows, FilterItems;
      RowsCons(rows[0], rows[1..]);
      assert rows == [rows[0]] + rows[1..];
      FilterCons(Some(rows[0]), Rows(rows[1..]), VersionedFilter());
      RowsCons(rows[0], Filter(rows[1..], Versioned()));
    }
  }

  lemma ReadKey(c: Clip, key: string)
    requires '.' !in key && key != ""
    ensures Eval(Variable(key), Obj(c)) == Ok(Get(c, key))
  {
    assert Split(key) == [key] && [key][1..] == [];
    assert Walk(Get(c, key), []) == Ok(Get(c, key));
  }

  lemma VersioningStages(keys: seq<string>)
    requires keys != []
    ensures GenVersioningAggregation(keys, true) == NewestStages(keys) + [FILTER(AliveFilter())]
  {
  }

  lemma DeletedPath()
    ensures Split("life.deletedTime") == ["life", "deletedTime"]
  {
    assert "life.deletedTime" == "life" + "." + "deletedTime";
    SplitOnce("life.deletedTime", "life", "deletedTime");
  }

  lemma AliveReadsUndefined()
    ensures Passes(None, AliveFilter()) == Err(Failed)
  {
    DeletedPath();
    hide Split;
    var v := Verifier(Variable("life.deletedTime"), IsNull);
    assert Walk(Undefined, ["life", "deletedTime"]) == Err(Failed);
    assert Verify(None, v) == Err(Failed);
    hide Verify;
    assert VerifyAll(None, [v]) == Err(Failed);
    assert AliveFilter() == [[v]];
  }
  lemma NoRows(keys: seq<string>)
    requires keys != []
    ensures Compose(GenVersioningAggregation(keys, true), Flat([])) == Ok(Flat([]))
  {
    var a, b, c := GROUP(keys, false), LEAVEONE(Variable("life.createdTime"), true), FILTER(AliveFilter());
    NothingGrouped(keys, false);
    assert GenVersioningAggregation(keys, true) == [a, b, c];
    LeaveOneStage([]);
    hide GenVersioningAggregation, AliveFilter;
    assert RunStage(c, Flat([])) == Ok(Flat([]));
    hide RunStage;
    ComposeThree(a, b, c, Flat([]), Grouped([]), Flat([]));
  }

  lemma NothingGrouped(keys: seq<string>, skipUnmatch: bool)
    ensures RunStage(GROUP(keys, skipUnmatch), Flat([])) == Ok(Grouped([]))
  {
    assert GroupUp([], GroupKey(keys)) == [];
    assert Items(GroupUp([], GroupKey(keys))) == [];
    assert GroupItems([], keys, skipUnmatch) == [];
  }

  lemma UngroupableFails(items: seq<Item>, keys: seq<string>)
    requires exists c :: c in items && !IsGroupable(c, keys)
    ensures Compose(NewestStages(keys), Flat(items)) == Err(Failed)
  {
    hide IsGroupable, Compose, GroupItems;
    ComposeCons(GROUP(keys, false), [LEAVEONE(Variable("life.createdTime"), true)], Flat(items));
  }

  lemma AliveFails(left: seq<Item>)
    requires left != [] && left[0] == None
    ensures Compose([FILTER(AliveFilter())], Flat(left)) == Err(Failed)
  {
    AliveReadsUndefined();
    var stage := FILTER(AliveFilter());
    hide Passes, AliveFilter, Compose;
    assert FilterItems(left, AliveFilter()) == Err(Failed);
    hide FilterItems;
    assert RunStage(stage, Flat(left)) == Err(Failed);
    assert [stage] + [] == [stage];
    hide RunStage;
    ComposeCons(stage, [], Flat(left));
  }

  lemma VersioningFails(rows: seq<Clip>, keys: seq<string>)
    requires NoLife(rows) && keys != [] && rows != []
    ensures Compose(GenVersioningAggregation(keys, true), Flat(Rows(rows))) == Err(Failed)
  {
    var items := Rows(rows);
    hide Compose, GroupItems, IsGroupable, AliveFilter, NewestStages, GenVersioningAggregation, Rows, NoLife;
    VersioningStages(keys);
    ComposeAppend(NewestStages(keys), [FILTER(AliveFilter())], Flat(items));
    if forall c | c in items :: IsGroupable(c, keys) {
      RowsLeaveUndefined(rows, keys);
      var groups := GroupItems(items, keys, false);
      GroupedItems(items, keys);
      FirstRow(rows);
      AliveFails(seq(|groups|, i => None));
    } else {
      UngroupableFails(items, keys);
    }
  }

  lemma FirstRow(rows: seq<Clip>)
    requires rows != []
    ensures Some(rows[0]) in Rows(rows)
  {
    assert Rows(rows)[0] == Some(rows[0]);
  }

  lemma VersionedIsFirst(keys: seq<string>)
    ensures GenVersioningAggregation(keys, false)
         == [FILTER(VersionedFilter())] + GenVersioningAggregation(keys, true)
  {
    hide AliveFilter;
  }

  lemma VersionedFirst(rows: seq<Clip>, keys: seq<string>)
    ensures Compose(GenVersioningAggregation(keys, false), Flat(Rows(rows)))
         == Compose(GenVersioningAggregation(keys, true), Flat(Rows(Filter(rows, Versioned()))))
  {
    var kept := Rows(Filter(rows, Versioned()));
    hide Versioned, VersionedFilter, FilterItems, Compose, GenVersioningAggregation, Rows, Filter;
    VersionedIsFirst(keys);
    VersionedStage(rows);
    assert RunStage(FILTER(VersionedFilter()), Flat(Rows(rows))) == Ok(Flat(kept));
    hide RunStage;
    ComposeCons(FILTER(VersionedFilter()), GenVersioningAggregation(keys, true), Flat(Rows(rows)));
  }

  /** The read of data hands over rows without their life, so every pipeline of this kind that groups throws as soon
      as a row is left to group: its last stage reads the undefined items. */
  lemma ProjectedRowsFailIff(rows: seq<Clip>, keys: seq<string>, hasVersioning: bool)
    requires NoLife(rows)
    ensures Compose(GenVersioningAggregation(keys, hasVersioning), Flat(Rows(rows)))
         == if keys != [] && LeftToGroup(rows, hasVersioning) != [] then Err(Failed)
            else Ok(Flat(Rows(LeftToGroup(rows, hasVersioning))))
  {
    var kept := LeftToGroup(rows, hasVersioning);
    if !hasVersioning { VersionedFirst(rows, keys); }
    assert NoLife(kept) by {
      forall c | c in kept ensures c in rows { FilterMember(rows, Versioned(), c); }
    }
    if keys == [] {
      assert GenVersioningAggregation(keys, true) == [];
      ComposeNothing(Flat(Rows(kept)));
    } else if kept == [] {
      NoRows(keys);
    } else {
      VersioningFails(kept, keys);
    }
  }
}
