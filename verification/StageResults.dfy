/** What the stages give key by key and item by item, and where they refuse what they are given. */
module StageResults {
  import opened Sequences
  import opened Documents
  import opened Json
  import opened Grouping
  import opened Transformation
  import opened VersioningRead
  import opened GroupTexts

  predicate Has(item: Item, k: string) { item.Some? && k in item.value }

  // ----- GROUP --------------------------------------------------------------

  function NoKey(keys: seq<string>): Item -> bool { (item: Item) => GroupKey(keys)(item).None? }

  /** GROUP gives the keyed groups in the order in which their keys first appear, and behind them, unless they are to be
      skipped, the items without a key, in order and each alone. */
  lemma GroupsAre(items: seq<Item>, keys: seq<string>, skip: bool, groups: seq<seq<Item>>)
    requires RunStage(GROUP(keys, skip), Flat(items)) == Ok(Grouped(groups))
    ensures var gs, alone := KeyedGroups(items, keys), Filter(items, NoKey(keys));
      && InOrder(gs, items, GroupKey(keys))
      && |groups| == |gs| + (if skip then 0 else |alone|)
      && (forall i | 0 <= i < |gs| :: groups[i] == gs[i].items)
      && forall i | |gs| <= i < |groups| :: groups[i] == [alone[i - |gs|]]
  {
    assert KeyedGroups(items, keys) == GroupUp(items, GroupKey(keys));
    hide *;
    GroupIsPartition(items, keys, skip);
    GroupsInOrder(items, GroupKey(keys));
    GroupItemsAre(items, keys, skip);
  }

  lemma GroupItemsAre(items: seq<Item>, keys: seq<string>, skip: bool)
    ensures var gs, alone := KeyedGroups(items, keys), Filter(items, NoKey(keys));
            var groups := GroupItems(items, keys, skip);
      && |groups| == |gs| + (if skip then 0 else |alone|)
      && (forall i | 0 <= i < |gs| :: groups[i] == gs[i].items)
      && forall i | |gs| <= i < |groups| :: groups[i] == [alone[i - |gs|]]
  {
    forall i | 0 <= i < |items| ensures Unkeyed(keys)(items[i]) == NoKey(keys)(items[i]) {
      assert GroupKey(keys)(items[i]).None? <==> !HasKeys(items[i], keys);
    }
    FilterAgrees(items, Unkeyed(keys), NoKey(keys));
    hide GroupUp, Filter;
  }

  // ----- JOIN and CONCAT ----------------------------------------------------

  /** i is the last item with the key. */
  ghost predicate IsLastWith(items: seq<Item>, k: string, i: nat) {
    i < |items| && Has(items[i], k) && forall j | i < j < |items| :: !Has(items[j], k)
  }

  lemma JoinPush(items: seq<Item>)
    requires items != []
    ensures var front, last := JoinOf(items[..|items| - 1]), items[|items| - 1];
      JoinOf(items) == if last.Some? then front + last.value else front
  {
  }

  /** A joined group has the keys of its items, each with the value of the last item that has it. */
  lemma {:induction false} JoinIs(items: seq<Item>, k: string)
    ensures k in JoinOf(items) <==> exists i :: 0 <= i < |items| && Has(items[i], k)
    ensures forall i: nat | IsLastWith(items, k, i) :: k in JoinOf(items) && JoinOf(items)[k] == items[i].value[k]
  {
    if items != [] {
      var n := |items| - 1;
      JoinIs(items[..n], k);
      JoinPush(items);
      hide JoinOf;
      assert items == items[..n] + [items[n]];
      forall i: nat | IsLastWith(items, k, i) && i < n ensures IsLastWith(items[..n], k, i) {}
      if i :| 0 <= i < n && Has(items[i], k) { assert Has(items[..n][i], k); }
    }
  }

  function ValuesUnder(clips: seq<Clip>, k: string): seq<Value> {
    if clips == [] then []
    else
      var last := clips[|clips| - 1];
      ValuesUnder(clips[..|clips| - 1], k) + if k in last then [last[k]] else []
  }

  /** The first value that counts as true, or where none does the last one. */
  ghost predicate IsFirstTruthy(values: seq<Value>, v: Value) {
    values != []
    && ((exists i :: 0 <= i < |values| && values[i] == v && Truthy(v) && forall j | 0 <= j < i :: !Truthy(values[j]))
        || ((forall j | 0 <= j < |values| :: !Truthy(values[j])) && v == values[|values| - 1]))
  }

  /** What counts as false. */
  lemma TruthyIs(v: Value)
    ensures Truthy(v) <==> v !in {Undefined, Null, Bool(false), Num(0), Str("")}
  {
  }

  lemma FirstTruthyPush(values: seq<Value>, v: Value, w: Value)
    requires IsFirstTruthy(values, v)
    ensures IsFirstTruthy(values + [w], if Truthy(v) then v else w)
  {
    hide Truthy;
    if Truthy(v) {
      var i :| 0 <= i < |values| && values[i] == v && forall j | 0 <= j < i :: !Truthy(values[j]);
      assert (values + [w])[i] == v;
    } else if Truthy(w) {
      assert (values + [w])[|values|] == w;
    }
  }

  /** A concatenated group has the keys of its clips: under the keys to concatenate the list of all values in order,
      under the others the first one that counts as true. */
  lemma {:induction false} ConcatIs(clips: seq<Clip>, keys: seq<string>, k: string)
    ensures k in ConcatOf(clips, keys) <==> exists i :: 0 <= i < |clips| && k in clips[i]
    ensures k in ConcatOf(clips, keys) <==> ValuesUnder(clips, k) != []
    ensures k in ConcatOf(clips, keys) && k in keys ==> ConcatOf(clips, keys)[k] == Arr(ValuesUnder(clips, k))
    ensures k in ConcatOf(clips, keys) && k !in keys ==>
              IsFirstTruthy(ValuesUnder(clips, k), ConcatOf(clips, keys)[k])
  {
    hide Truthy, IsFirstTruthy;
    if clips != [] {
      var n := |clips| - 1;
      ConcatIs(clips[..n], keys, k);
      assert forall i | 0 <= i < n :: clips[..n][i] == clips[i];
      var before, values := ConcatOf(clips[..n], keys), ValuesUnder(clips[..n], k);
      assert ConcatOf(clips, keys) == ConcatStep(before, clips[n], keys);
      if k in clips[n] {
        var w := clips[n][k];
        assert ValuesUnder(clips, k) == values + [w];
        OneTruthy(w);
        if k in before {
          FirstTruthyOrNot(values, before[k], w);
        } else {
          assert values + [w] == [w] && Get(before, k) == Undefined;
        }
        hide ValuesUnder, ConcatOf;
      } else {
        assert ValuesUnder(clips, k) == values;
      }
    }
  }

  lemma FirstTruthyOrNot(values: seq<Value>, v: Value, w: Value)
    ensures IsFirstTruthy(values, v) ==> IsFirstTruthy(values + [w], if Truthy(v) then v else w)
  {
    if IsFirstTruthy(values, v) { FirstTruthyPush(values, v, w); }
  }

  lemma OneTruthy(v: Value)
    ensures IsFirstTruthy([v], v) && !Truthy(Undefined)
  {
    if Truthy(v) { assert [v][0] == v; }
  }

  // ----- DECONCAT and DEGROUP -----------------------------------------------

  /** The greatest length of a list or a string under the keys, none without keys. */
  ghost predicate IsLongest(c: Clip, keys: seq<string>, n: nat) {
    && (forall k | k in keys && k in c && c[k].Arr? :: |c[k].elems| <= n)
    && (forall k | k in keys && k in c && c[k].Str? :: |c[k].s| <= n)
    && (n == 0 || exists k :: k in keys && k in c && ((c[k].Arr? && |c[k].elems| == n) || (c[k].Str? && |c[k].s| == n)))
  }

  lemma {:induction false} MaxLengthIs(c: Clip, keys: seq<string>)
    ensures IsLongest(c, keys, MaxLength(c, keys))
  {
    if keys != [] {
      MaxLengthIs(c, keys[1..]);
      assert forall k :: k in keys <==> k == keys[0] || k in keys[1..];
    }
  }

  /** The i-th part of a value: an element, a character, or nothing. */
  ghost predicate IsPart(v: Value, i: nat, part: Value) {
    && (v.Arr? && i < |v.elems| ==> part == v.elems[i])
    && (v.Str? && i < |v.s| ==> part == Str(v.s[i..i + 1]))
    && ((v.Arr? ==> i >= |v.elems|) && (v.Str? ==> i >= |v.s|) ==> part == Undefined)
  }

  /** A clip is taken apart into as many clips as the longest of the lists has elements; the i-th one has the i-th parts
      under the keys and the clip's own values under the others. */
  lemma DeconcatIs(c: Clip, keys: seq<string>, i: nat, k: string)
    ensures IsLongest(c, keys, |DeconcatOf(c, keys)|)
    ensures i < |DeconcatOf(c, keys)| ==>
              var part := DeconcatOf(c, keys)[i];
              && (k in part <==> k in c || k in keys)
              && (k in c && k !in keys ==> part[k] == c[k])
              && (k in keys ==> IsPart(if k in c then c[k] else Undefined, i, part[k]))
  {
    MaxLengthIs(c, keys);
    hide MaxLength, IsLongest;
    assert Get(c, k).Str? && i < |Get(c, k).s| ==> [Get(c, k).s[i]] == Get(c, k).s[i..i + 1];
  }

  /** The i-th part of a clip split by lists of keys has the shared keys and those of the i-th list, undefined where the
      clip has none. */
  lemma DegroupIs(c: Clip, shared: seq<string>, targets: seq<seq<string>>, i: nat, k: string)
    ensures |DegroupOf(c, shared, targets)| == |targets|
    ensures i < |targets| ==>
              DegroupOf(c, shared, targets)[i].Some?
              && var part := DegroupOf(c, shared, targets)[i].value;
                 && (k in part <==> k in shared || k in targets[i])
                 && (k in part ==> part[k] == if k in c then c[k] else Undefined)
  {
  }

  // ----- FLATTEN ------------------------------------------------------------

  /** The indices of the list, as texts, with its elements. */
  ghost predicate IsIndexed(elems: seq<Value>, inner: Clip) {
    && (forall k :: k in inner <==> exists i :: 0 <= i < |elems| && k == Decimal(i))
    && forall i | 0 <= i < |elems| :: inner[Decimal(i)] == elems[i]
  }

  lemma IndexedPush(elems: seq<Value>, before: Clip)
    requires elems != [] && IsIndexed(elems[..|elems| - 1], before)
    requires forall i | 0 <= i < |elems| - 1 :: Decimal(i) != Decimal(|elems| - 1)
    ensures IsIndexed(elems, before[Decimal(|elems| - 1) := elems[|elems| - 1]])
  {
    hide Decimal;
    var n := |elems| - 1;
    var after := before[Decimal(n) := elems[n]];
    forall i | 0 <= i < n ensures Decimal(i) in after && after[Decimal(i)] == elems[i] {
      assert elems[..n][i] == elems[i] && Decimal(i) in before;
    }
    forall k ensures k in after <==> exists i :: 0 <= i < |elems| && k == Decimal(i) {
      if i :| 0 <= i < |elems| && k == Decimal(i) { assert i == n || Decimal(i) in before; }
      if k in before { var i :| 0 <= i < n && k == Decimal(i); }
    }
  }

  lemma {:induction false} ArrayEntriesAre(elems: seq<Value>)
    ensures IsIndexed(elems, ArrayEntries(elems))
  {
    if elems != [] {
      var n := |elems| - 1;
      ArrayEntriesAre(elems[..n]);
      hide Decimal;
      forall i | 0 <= i < n ensures Decimal(i) != Decimal(n) { DecimalReadsBack(i, n); }
      var before := ArrayEntries(elems[..n]);
      assert ArrayEntries(elems) == before[Decimal(n) := elems[n]];
      assert IsIndexed(elems[..n], before);
      hide ArrayEntries;
      IndexedPush(elems, before);
    }
  }

  /** A clip without an object or a list under the key stays as it is; the others get its keys, and on conflicts the
      flag decides; the key itself is dropped unless it is to be kept. */
  lemma FlattenIs(c: Clip, keepOwn: bool, key: string, keepKey: bool, inner: Clip, k: string)
    requires Entries(Get(c, key)) == Some(inner)
    ensures var r := FlattenOf(c, keepOwn, key, keepKey);
      && (k in r <==> (k in c || k in inner) && (keepKey || k != key))
      && (k in r && k in c && k in inner ==> r[k] == if keepOwn then c[k] else inner[k])
      && (k in r && k !in inner ==> r[k] == c[k])
      && (k in r && k !in c ==> r[k] == inner[k])
  {
    hide Entries;
  }

  lemma EntriesAre(v: Value)
    ensures v.Obj? ==> Entries(v) == Some(v.fields)
    ensures v.Arr? ==> Entries(v).Some? && IsIndexed(v.elems, Entries(v).value)
    ensures !v.Obj? && !v.Arr? ==> Entries(v) == None
  {
    if v.Arr? { ArrayEntriesAre(v.elems); }
    hide IsIndexed;
  }

  lemma FlattenPasses(c: Clip, keepOwn: bool, key: string, keepKey: bool)
    requires key !in c || !(c[key].Obj? || c[key].Arr?)
    ensures FlattenOf(c, keepOwn, key, keepKey) == c
  {
  }

  // ----- FILTER and LEAVEONE ------------------------------------------------

  /** A condition holds of a calculated value: the null tests ask for null itself. */
  lemma ConditionIs(item: Item, v: Verifier)
    ensures var value := Eval(v.formula, if item.Some? then Obj(item.value) else Undefined);
      && (value.Err? ==> Verify(item, v) == Err(value.error))
      && (value.Ok? && v.condition.IsNull? ==> Verify(item, v) == Ok(value.value == Null))
      && (value.Ok? && v.condition.IsNotNull? ==> Verify(item, v) == Ok(value.value != Null))
      && (value.Ok? && v.condition.Test? ==> Verify(item, v) == Ok(v.condition.holds(value.value)))
  {
    hide Eval;
  }

  function Passing(filters: seq<seq<Verifier>>): Item -> bool { (item: Item) => Passes(item, filters) == Ok(true) }

  /** FILTER leaves the items that pass, in order. */
  lemma {:induction false} FilterIs(items: seq<Item>, filters: seq<seq<Verifier>>)
    ensures FilterItems(items, filters).Ok? ==> FilterItems(items, filters) == Ok(Filter(items, Passing(filters)))
  {
    hide Passes;
    if items != [] { FilterIs(items[1..], filters); }
  }

  /** What a score counts as. */
  lemma NumberIs(v: Value)
    ensures v.Num? ==> ToNumber(v) == Some(v.n)
    ensures v == Null || v == Bool(false) ==> ToNumber(v) == Some(0)
    ensures v == Bool(true) ==> ToNumber(v) == Some(1)
    ensures !v.Num? && !v.Null? && !v.Bool? ==> ToNumber(v) == None
  {
  }

  // ----- shapes -------------------------------------------------------------

  predicate OnItems(stage: Stage) { stage.GROUP? || stage.AFFINE? || stage.DEGROUP? }

  predicate OnGroups(stage: Stage) { stage.LEAVEONE? || stage.JOIN? || stage.CONCAT? || stage.COUNT? }

  /** GROUP, AFFINE and DEGROUP refuse a list of lists, LEAVEONE, JOIN, CONCAT and COUNT a list of items, and the empty
      list is both; DECONCAT leaves only empty lists of a list of lists, and an unknown operation is refused. */
  lemma ShapesAre(stage: Stage, items: seq<Item>, groups: seq<seq<Item>>)
    ensures OnItems(stage) && groups != [] ==> RunStage(stage, Grouped(groups)) == Err(WrongShape)
    ensures OnGroups(stage) && items != [] ==> RunStage(stage, Flat(items)) == Err(WrongShape)
    ensures OnItems(stage) || OnGroups(stage) ==> RunStage(stage, Flat([])) == RunStage(stage, Grouped([]))
    ensures stage == UNKNOWN ==> RunStage(stage, Flat(items)) == RunStage(stage, Grouped(groups)) == Err(NotRegistered)
  {
  }

  lemma DeconcatOfGroups(keys: seq<string>, groups: seq<seq<Item>>)
    ensures RunStage(DECONCAT(keys), Grouped(groups)) == Ok(Grouped(seq(|groups|, i => [])))
  {
    assert Map(groups, Nothing()) == seq(|groups|, i => []);
  }

  /** AFFINE drops the clips that are left without keys. */
  lemma AffineStageIs(p: AffineParams, items: seq<Item>)
    ensures match TryMap(items, AffineOne(p))
      case Ok(affined) =>
        RunStage(AFFINE(p), Flat(items)) == Ok(Flat(Filter(affined, (item: Item) => item != Some(map[]))))
      case Err(e) => RunStage(AFFINE(p), Flat(items)) == Err(e)
  {
    if TryMap(items, AffineOne(p)).Ok? {
      FilterAgrees(TryMap(items, AffineOne(p)).value, HasEntries(), (item: Item) => item != Some(map[]));
    }
    hide AffineOf, TryMap, Filter;
  }
}
