/** Pipelines over one list of clip objects. AFFINE changes the objects it reaches, so a pipeline can change
    what the later ones read and what the earlier ones returned. */
module Aggregation {
  import opened Sequences
  import opened Documents
  import opened Json
  import opened Grouping
  import opened Transformation
  import opened TransformationHeap
  import V = VersioningRead

  /** The clips of the rows that are handed over. */
  function Clips(data: seq<ClipObject>): (r: seq<Clip>)
    reads data
    ensures |r| == |data| && forall i | 0 <= i < |data| :: r[i] == data[i].fields
  {
    seq(|data|, i requires 0 <= i < |data| reads data => data[i].fields)
  }

  lemma RowsAreRead(data: seq<ClipObject>)
    ensures ReadList(data) == V.Rows(Clips(data))
  {
  }

  // ----- one pipeline, moment by moment -------------------------------------

  /** What a stage finds: references, the clips they hold, and the clips the input's objects hold. */
  datatype Moment = Moment(refs: HeapData, value: Data, input: seq<Clip>)

  /** Where a reference is an object of the input, the clip is that object's. */
  ghost predicate HoldsList(refs: seq<Ref>, items: seq<Item>, data: seq<ClipObject>, input: seq<Clip>)
    requires |input| == |data|
  {
    && |refs| == |items|
    && (forall j | 0 <= j < |refs| :: refs[j] == null <==> items[j] == None)
    && forall j, k | 0 <= j < |refs| && 0 <= k < |data| && refs[j] == data[k] :: items[j] == Some(input[k])
  }

  ghost predicate Holds(m: Moment, data: seq<ClipObject>) {
    && |m.input| == |data|
    && match m.refs
       case FlatRefs(refs) => m.value.Flat? && HoldsList(refs, m.value.items, data, m.input)
       case GroupedRefs(groups) =>
         && m.value.Grouped? && |groups| == |m.value.groups|
         && forall i | 0 <= i < |groups| :: HoldsList(groups[i], m.value.groups[i], data, m.input)
  }

  /** The input's objects that a stage passes on. */
  ghost predicate Arrives(stage: Stage, m: Moment, next: Moment, data: seq<ClipObject>)
    requires |m.input| == |data|
  {
    && (Selects(stage) ==> forall o | o in Refs(next.refs) :: o in Refs(m.refs))
    && (Builds(stage) ==> forall o | o in data :: o !in Refs(next.refs))
    && (stage.FLATTEN? ==> forall k | 0 <= k < |data| ::
          data[k] in Refs(next.refs) <==> data[k] in Refs(m.refs) && NoObjectUnder(m.input[k], stage.flattenedKey))
    && (stage.FLATTEN? && FlattensNothing(stage, m.value) ==> next.refs == m.refs)
    && (stage.FILTER? && m.refs.FlatRefs? ==> forall k | 0 <= k < |data| ::
          data[k] in Refs(next.refs) <==> data[k] in Refs(m.refs) && PassesAll(stage.filters)(m.input[k]))
  }

  function PassesAll(filters: seq<seq<Verifier>>): Clip -> bool { (c: Clip) => Passes(Some(c), filters) == Ok(true) }

  predicate NoObjectUnder(c: Clip, key: string) { Entries(Get(c, key)) == None }

  predicate FlattensNothing(stage: Stage, v: Data)
    requires stage.FLATTEN?
  {
    forall item | item in AllItems(v) && item.Some? :: NoObjectUnder(item.value, stage.flattenedKey)
  }

  function AllItems(v: Data): seq<Item> {
    match v case Flat(items) => items case Grouped(groups) => Concatenated(groups)
  }

  /** AFFINE changes exactly the objects that reach it. */
  ghost predicate Changes(stage: Stage, m: Moment, after: seq<Clip>, data: seq<ClipObject>)
    requires |m.input| == |data|
  {
    && |after| == |data|
    && forall k | 0 <= k < |data| ::
         if stage.AFFINE? && data[k] in Refs(m.refs) then AffineOf(m.input[k], stage.params) == Ok(after[k])
         else after[k] == m.input[k]
  }

  ghost predicate Step(stage: Stage, m: Moment, next: Moment, data: seq<ClipObject>) {
    && Holds(m, data) && Holds(next, data)
    && RunStage(stage, m.value) == Ok(next.value)
    && Arrives(stage, m, next, data)
    && Changes(stage, m, next.input, data)
  }

  ghost predicate IsPath(run: seq<Moment>, stages: seq<Stage>, data: seq<ClipObject>) {
    && 1 <= |run| <= |stages| + 1 && Holds(run[0], data)
    && forall i | 0 <= i < |run| - 1 :: Step(stages[i], run[i], run[i + 1], data)
  }

  function Last(run: seq<Moment>): Moment
    requires run != []
  {
    run[|run| - 1]
  }

  /** The stage fails. AFFINE has changed the clips before the place where it did, and nothing behind it. */
  ghost predicate Fails(stage: Stage, m: Moment, after: seq<Clip>, data: seq<ClipObject>)
    requires |m.input| == |data|
  {
    && RunStage(stage, m.value).Err? && |after| == |data|
    && (forall k | 0 <= k < |data| && data[k] !in Refs(m.refs) :: after[k] == m.input[k])
    && if stage.AFFINE? && m.refs.FlatRefs? then
         m.value.Flat? && exists items, n: nat ::
           StopsAt(stage.params, m.value.items, items, n) && HoldsList(m.refs.refs, items, data, after)
       else after == m.input
  }

  /** All stages have run, or the next one fails. */
  ghost predicate Finishes(run: seq<Moment>, stages: seq<Stage>, data: seq<ClipObject>, after: seq<Clip>)
    requires IsPath(run, stages, data)
  {
    var m := Last(run);
    |m.input| == |data| && if |run| == |stages| + 1 then after == m.input else Fails(stages[|run| - 1], m, after, data)
  }

  /** A run of the pipeline from the input on, and what it leaves in the input's objects. */
  ghost predicate IsRun(run: seq<Moment>, stages: seq<Stage>, data: seq<ClipObject>, before: seq<Clip>,
                        after: seq<Clip>) {
    && IsPath(run, stages, data) && run[0] == Moment(FlatRefs(data), Flat(V.Rows(before)), before)
    && Finishes(run, stages, data, after)
  }

  // ----- when the input is spared -------------------------------------------

  /** All clips of the result are new: the stage builds them, or flattens an object in every clip. */
  predicate BuildsAll(stage: Stage, v: Data) {
    Builds(stage)
    || (stage.FLATTEN? && forall item | item in AllItems(v) && item.Some? ::
          !NoObjectUnder(item.value, stage.flattenedKey))
  }

  predicate OnlyRemoves(p: AffineParams) { p.addedKeyRules == [] && p.rules == map[] }

  /** AFFINE leaves the clip as it is; one that only removes does so when the clip has none of its keys. */
  predicate Harmless(p: AffineParams, c: Clip) {
    if OnlyRemoves(p) then forall k | k in p.removedKeys :: k !in c else AffineOf(c, p) == Ok(c)
  }

  predicate AllHarmless(p: AffineParams, items: seq<Item>) {
    forall i | 0 <= i < |items| && items[i].Some? :: Harmless(p, items[i].value)
  }

  /** The items AFFINE comes to: it throws at the first undefined one. */
  function Reached(items: seq<Item>): seq<Item> {
    if items == [] || items[0] == None then [] else [items[0]] + Reached(items[1..])
  }

  /** Until all clips are built anew, every AFFINE is harmless for every clip it comes to. */
  predicate Spares(stages: seq<Stage>, v: Data) {
    stages == [] || BuildsAll(stages[0], v)
    || (&& (stages[0].AFFINE? && v.Flat? ==> AllHarmless(stages[0].params, Reached(v.items)))
        && match RunStage(stages[0], v) case Err(_) => true case Ok(w) => Spares(stages[1..], w))
  }

  /** Until all clips are built anew, AFFINE only removes keys and FLATTEN builds no clip. */
  predicate Removing(stages: seq<Stage>, v: Data) {
    stages == [] || BuildsAll(stages[0], v)
    || (&& (stages[0].AFFINE? ==> OnlyRemoves(stages[0].params))
        && (stages[0].FLATTEN? ==> FlattensNothing(stages[0], v))
        && match RunStage(stages[0], v) case Err(_) => true case Ok(w) => Removing(stages[1..], w))
  }

  // ----- one run ------------------------------------------------------------

  /** The clip of an input object that reaches a stage is one of the clips the stage finds. */
  lemma ReachingClip(m: Moment, data: seq<ClipObject>, k: nat)
    requires Holds(m, data) && k < |data| && data[k] in Refs(m.refs)
    ensures Some(m.input[k]) in AllItems(m.value)
  {
    match m.refs
    case FlatRefs(refs) =>
      var j :| 0 <= j < |refs| && refs[j] == data[k];
      assert m.value.items[j] == Some(m.input[k]);
    case GroupedRefs(groups) =>
      var g: seq<Ref> :| g in groups && data[k] in g;
      var i :| 0 <= i < |groups| && groups[i] == g;
      var j: nat :| j < |g| && g[j] == data[k];
      assert m.value.groups[i][j] == Some(m.input[k]);
      InConcatenated(m.value.groups, i, Some(m.input[k]));
  }

  ghost predicate AllOfInput(m: Moment, data: seq<ClipObject>) { forall o | o in Refs(m.refs) :: o in data }

  ghost predicate NoneOfInput(m: Moment, data: seq<ClipObject>) { forall o | o in data :: o !in Refs(m.refs) }

  /** Where only input objects reach the stage, each clip it finds is that of one of them. */
  lemma ReachedFrom(m: Moment, data: seq<ClipObject>, j: nat) returns (k: nat)
    requires Holds(m, data) && AllOfInput(m, data) && m.value.Flat? && j < |m.value.items| && m.value.items[j].Some?
    ensures k < |data| && m.refs.FlatRefs? && j < |m.refs.refs| && m.refs.refs[j] == data[k]
    ensures data[k] in Refs(m.refs) && m.value.items[j] == Some(m.input[k])
  {
    var o := m.refs.refs[j];
    assert o != null && o in Refs(m.refs);
    k :| 0 <= k < |data| && data[k] == o;
  }

  lemma PathTail(run: seq<Moment>, stages: seq<Stage>, data: seq<ClipObject>)
    requires IsPath(run, stages, data) && |run| > 1
    ensures IsPath(run[1..], stages[1..], data)
    ensures Step(stages[0], run[0], run[1], data) && RunStage(stages[0], run[0].value) == Ok(run[1].value)
    ensures forall after :: Finishes(run, stages, data, after) == Finishes(run[1..], stages[1..], data, after)
  {
    assert Step(stages[0], run[0], run[1], data);
    hide Step, Holds, RunStage;
    StepHolds(stages[0], run[0], run[1], data);
    forall i | 0 <= i < |run[1..]| - 1 ensures Step(stages[1..][i], run[1..][i], run[1..][i + 1], data) {
      assert Step(stages[i + 1], run[i + 1], run[i + 2], data);
    }
  }

  lemma StepHolds(stage: Stage, m: Moment, next: Moment, data: seq<ClipObject>)
    requires Step(stage, m, next, data)
    ensures Holds(m, data) && Holds(next, data) && RunStage(stage, m.value) == Ok(next.value)
  {
    hide Holds, RunStage;
  }

  lemma ComposeHead(stages: seq<Stage>, v: Data, w: Data)
    requires stages != [] && RunStage(stages[0], v) == Ok(w)
    ensures Compose(stages, v) == Compose(stages[1..], w)
  {
  }

  /** A path computes the composition up to its last moment. */
  lemma {:induction false} PathComputes(run: seq<Moment>, stages: seq<Stage>, data: seq<ClipObject>)
    requires IsPath(run, stages, data)
    ensures Compose(stages, run[0].value) == Compose(stages[|run| - 1..], Last(run).value)
    decreases run
  {
    hide RunStage, Step, Holds, Compose, Finishes;
    if |run| > 1 {
      PathTail(run, stages, data);
      ComposeHead(stages, run[0].value, run[1].value);
      PathComputes(run[1..], stages[1..], data);
      assert stages[1..][|run| - 2..] == stages[|run| - 1..];
    } else {
      assert stages[0..] == stages;
    }
  }

  lemma StaysBuilt(stage: Stage, m: Moment, next: Moment, data: seq<ClipObject>)
    requires Step(stage, m, next, data) && NoneOfInput(m, data)
    ensures NoneOfInput(next, data) && next.input == m.input
  {
    assert stage != UNKNOWN;
    hide RunStage, HoldsList, Entries;
    forall k | 0 <= k < |data| ensures data[k] !in Refs(next.refs) && next.input[k] == m.input[k] {
      assert data[k] in data;
    }
  }

  /** Clips built anew shield the input from the rest of the pipeline. */
  lemma {:induction false} BuiltPath(run: seq<Moment>, stages: seq<Stage>, data: seq<ClipObject>, after: seq<Clip>)
    requires IsPath(run, stages, data) && Finishes(run, stages, data, after) && NoneOfInput(run[0], data)
    ensures after == run[0].input
    decreases run
  {
    hide RunStage, Holds;
    if |run| > 1 {
      PathTail(run, stages, data);
      StaysBuilt(stages[0], run[0], run[1], data);
      BuiltPath(run[1..], stages[1..], data, after);
    }
  }

  lemma BuildsAllBuilds(stage: Stage, m: Moment, next: Moment, data: seq<ClipObject>)
    requires Step(stage, m, next, data) && BuildsAll(stage, m.value)
    ensures NoneOfInput(next, data) && next.input == m.input
  {
    hide RunStage, HoldsList, Entries;
    assert next.input == m.input;
    forall k | 0 <= k < |data| ensures data[k] !in Refs(next.refs) {
      if stage.FLATTEN? && data[k] in Refs(m.refs) {
        StepHolds(stage, m, next, data);
        ReachingClip(m, data, k);
      }
    }
  }

  lemma RemovalIsHarmlessIff(p: AffineParams, c: Clip)
    ensures Harmless(p, c) <==> AffineOf(c, p) == Ok(c)
    ensures OnlyRemoves(p) ==> AffineOf(c, p) == Ok(RemoveKeys(c, p.removedKeys))
  {
    if OnlyRemoves(p) {
      var ruled := ApplyRules(c, p.rules);
      assert ruled.Ok? && ruled.value == c;
      var r := RemoveKeys(c, p.removedKeys);
      if r == c {
        forall k | k in p.removedKeys ensures k !in c { assert k !in r; }
      }
      if forall k | k in p.removedKeys :: k !in c { assert r == c; }
    }
  }

  /** Where AFFINE succeeds, it came to every item. */
  lemma {:induction false} ReachedAll(items: seq<Item>)
    ensures |Reached(items)| <= |items| && forall i | 0 <= i < |Reached(items)| :: Reached(items)[i] == items[i]
    ensures forall i | 0 <= i < |Reached(items)| :: items[i].Some?
    ensures |Reached(items)| < |items| ==> items[|Reached(items)|] == None
  {
    if items != [] && items[0].Some? {
      ReachedAll(items[1..]);
      assert forall i | 0 < i < |items| :: items[i] == items[1..][i - 1];
    }
  }

  lemma AffineReachesAll(p: AffineParams, items: seq<Item>)
    requires AffineStage(items, p).Ok?
    ensures Reached(items) == items
  {
    hide AffineOf, Reached;
    ReachedAll(items);
    V.TryMapOkIff(items, AffineOne(p));
  }

  lemma HarmlessStep(stage: Stage, m: Moment, next: Moment, data: seq<ClipObject>)
    requires Step(stage, m, next, data)
    requires stage.AFFINE? && m.value.Flat? ==> AllHarmless(stage.params, Reached(m.value.items))
    ensures next.input == m.input
  {
    assert stage.AFFINE? && m.value.Grouped? && m.refs.GroupedRefs? && m.value.groups == [] ==> Refs(m.refs) == {};
    if stage.AFFINE? && m.value.Flat? { AffineReachesAll(stage.params, m.value.items); }
    hide Holds, Harmless, Reached;
    forall k | 0 <= k < |data| ensures next.input[k] == m.input[k] {
      if stage.AFFINE? && data[k] in Refs(m.refs) {
        ReachingClip(m, data, k);
        RemovalIsHarmlessIff(stage.params, m.input[k]);
      }
    }
  }

  /** A failing AFFINE that is harmless changed nothing. */
  lemma HarmlessFailure(stage: Stage, m: Moment, after: seq<Clip>, data: seq<ClipObject>)
    requires Holds(m, data) && Fails(stage, m, after, data)
    requires stage.AFFINE? && m.value.Flat? ==> AllHarmless(stage.params, Reached(m.value.items))
    ensures after == m.input
  {
    hide AffineOf, RunStage, Harmless, Reached;
    if stage.AFFINE? && m.refs.FlatRefs? {
      var p, before := stage.params, m.value.items;
      var items, n: nat :| StopsAt(p, before, items, n) && HoldsList(m.refs.refs, items, data, after);
      HarmlessStops(p, before, items, n);
      forall k | 0 <= k < |data| ensures after[k] == m.input[k] {
        if data[k] in Refs(m.refs) {
          var j :| 0 <= j < |m.refs.refs| && m.refs.refs[j] == data[k];
          assert items[j] == before[j];
        }
      }
    }
  }

  lemma HarmlessStops(p: AffineParams, before: seq<Item>, after: seq<Item>, n: nat)
    requires StopsAt(p, before, after, n) && AllHarmless(p, Reached(before))
    ensures forall j | 0 <= j < |before| && before[j].Some? :: after[j] == before[j]
  {
    hide AffineOf, Harmless, Reached;
    ReachedAll(before);
    var reached := |Reached(before)|;
    forall j | 0 <= j < reached ensures AffineOne(p)(before[j]) == Ok(before[j]) {
      assert Reached(before)[j] == before[j];
      RemovalIsHarmlessIff(p, before[j].value);
    }
  }

  /** A pipeline that spares the input leaves it as it is. */
  lemma {:induction false} SparedPath(run: seq<Moment>, stages: seq<Stage>, data: seq<ClipObject>, after: seq<Clip>)
    requires IsPath(run, stages, data) && Finishes(run, stages, data, after) && Spares(stages, run[0].value)
    ensures after == run[0].input
    decreases run
  {
    hide RunStage, Holds, Arrives, Changes, Harmless;
    if |run| > 1 {
      PathTail(run, stages, data);
      if BuildsAll(stages[0], run[0].value) {
        BuildsAllBuilds(stages[0], run[0], run[1], data);
        BuiltPath(run[1..], stages[1..], data, after);
      } else {
        HarmlessStep(stages[0], run[0], run[1], data);
        SparedPath(run[1..], stages[1..], data, after);
      }
    } else if |stages| > 0 && !BuildsAll(stages[0], run[0].value) {
      HarmlessFailure(stages[0], run[0], after, data);
    } else if |stages| > 0 {
      BuildingFailure(stages[0], run[0], after, data);
    }
  }

  lemma BuildingFailure(stage: Stage, m: Moment, after: seq<Clip>, data: seq<ClipObject>)
    requires |m.input| == |data| && Fails(stage, m, after, data) && BuildsAll(stage, m.value)
    ensures after == m.input
  {
  }

  // ----- the exact condition ------------------------------------------------

  /** The clips are the given ones with some keys gone. */
  ghost predicate Shrunk(after: seq<Clip>, before: seq<Clip>) {
    |after| == |before| && forall k | 0 <= k < |before| :: ShrunkClip(after[k], before[k])
  }

  ghost predicate ShrunkClip(after: Clip, before: Clip) {
    after.Keys <= before.Keys && forall key | key in after :: after[key] == before[key]
  }

  lemma ShrunkBack(c: seq<Clip>, b: seq<Clip>, a: seq<Clip>)
    requires Shrunk(c, b) && Shrunk(b, a)
    ensures Shrunk(c, a) && (c == a ==> b == a)
  {
    if c == a {
      forall k | 0 <= k < |a| ensures b[k] == a[k] {
        assert ShrunkClip(c[k], b[k]) && ShrunkClip(b[k], a[k]);
      }
    }
  }

  lemma RemovingStep(stage: Stage, m: Moment, next: Moment, data: seq<ClipObject>)
    requires Step(stage, m, next, data) && AllOfInput(m, data)
    requires stage.AFFINE? ==> OnlyRemoves(stage.params)
    ensures Shrunk(next.input, m.input)
    ensures next.input == m.input && stage.AFFINE? && m.value.Flat? ==>
              AllHarmless(stage.params, Reached(m.value.items))
  {
    hide HoldsList, RunStage, Harmless, AffineOf, Reached;
    forall k | 0 <= k < |data|
      ensures ShrunkClip(next.input[k], m.input[k])
    {
      if stage.AFFINE? { RemovalIsHarmlessIff(stage.params, m.input[k]); }
    }
    if next.input == m.input && stage.AFFINE? && m.value.Flat? {
      ReachedAll(m.value.items);
      forall j | 0 <= j < |Reached(m.value.items)| ensures Harmless(stage.params, Reached(m.value.items)[j].value) {
        var k := ReachedFrom(m, data, j);
        RemovalIsHarmlessIff(stage.params, m.input[k]);
      }
    }
  }

  /** A failing AFFINE that only removes keys failed at the first undefined item. */
  lemma RemovingFailure(stage: Stage, m: Moment, after: seq<Clip>, data: seq<ClipObject>)
    requires Holds(m, data) && Fails(stage, m, after, data) && AllOfInput(m, data)
    requires stage.AFFINE? ==> OnlyRemoves(stage.params)
    ensures Shrunk(after, m.input)
    ensures after == m.input && stage.AFFINE? && m.value.Flat? ==> AllHarmless(stage.params, Reached(m.value.items))
  {
    hide AffineOf, RunStage, Harmless, Reached, AllHarmless, HoldsList;
    if stage.AFFINE? && m.refs.FlatRefs? {
      var p, before := stage.params, m.value.items;
      var items, n: nat :| StopsAt(p, before, items, n) && HoldsList(m.refs.refs, items, data, after);
      RemovalStops(p, before, items, n);
      forall k | 0 <= k < |data| ensures ShrunkClip(after[k], m.input[k]) {
        if data[k] in Refs(m.refs) {
          var j :| 0 <= j < |m.refs.refs| && m.refs.refs[j] == data[k];
          HoldsAt(m, items, data, after, j, k);

        }
      }
      if after == m.input { HarmlessBefore(m, items, data, after, p, n); }
    }
  }

  lemma HoldsAt(m: Moment, items: seq<Item>, data: seq<ClipObject>, after: seq<Clip>, j: nat, k: nat)
    requires Holds(m, data) && m.refs.FlatRefs? && |after| == |data| && HoldsList(m.refs.refs, items, data, after)
    requires j < |m.refs.refs| && k < |data| && m.refs.refs[j] == data[k]
    ensures m.value.Flat? && |items| == |m.value.items| == |m.refs.refs|
    ensures items[j] == Some(after[k]) && m.value.items[j] == Some(m.input[k])
  {
  }

  lemma HarmlessBefore(m: Moment, items: seq<Item>, data: seq<ClipObject>, after: seq<Clip>, p: AffineParams, n: nat)
    requires Holds(m, data) && m.refs.FlatRefs? && AllOfInput(m, data) && |after| == |data| && after == m.input
    requires HoldsList(m.refs.refs, items, data, after)
    requires StopsAt(p, m.value.items, items, n) && n == |Reached(m.value.items)|
    ensures AllHarmless(p, Reached(m.value.items))
  {
    hide AffineOf, Harmless, Reached, HoldsList;
    ReachedAll(m.value.items);
    forall j | 0 <= j < n ensures Harmless(p, Reached(m.value.items)[j].value) {
      var k := ReachedFrom(m, data, j);
      HoldsAt(m, items, data, after, j, k);
      RemovalIsHarmlessIff(p, m.input[k]);
    }
  }

  lemma RemovalStops(p: AffineParams, before: seq<Item>, after: seq<Item>, n: nat)
    requires StopsAt(p, before, after, n) && OnlyRemoves(p)
    ensures n == |Reached(before)| && before[n] == None
    ensures forall j | 0 <= j < n && before[j].Some? :: after[j].Some? && ShrunkClip(after[j].value, before[j].value)
    ensures forall j | n < j < |before| :: after[j] == before[j]
  {
    hide AffineOf, Reached;
    ReachedAll(before);
    forall j | 0 <= j < |before| && before[j].Some?
      ensures AffineOf(before[j].value, p) == Ok(RemoveKeys(before[j].value, p.removedKeys))
    {
      RemovalIsHarmlessIff(p, before[j].value);
    }
  }

  lemma RemovingKeepsRefs(stage: Stage, m: Moment, next: Moment, data: seq<ClipObject>)
    requires Step(stage, m, next, data) && AllOfInput(m, data) && !BuildsAll(stage, m.value)
    requires stage.FLATTEN? ==> FlattensNothing(stage, m.value)
    ensures AllOfInput(next, data)
  {
  }

  /** A pipeline that only removes keys from what it reads leaves its input as it is only if it spares it. */
  lemma {:induction false} RemovingPath(run: seq<Moment>, stages: seq<Stage>, data: seq<ClipObject>, after: seq<Clip>)
    requires IsPath(run, stages, data) && Finishes(run, stages, data, after)
    requires Removing(stages, run[0].value) && AllOfInput(run[0], data)
    ensures Shrunk(after, run[0].input)
    ensures after == run[0].input ==> Spares(stages, run[0].value)
    decreases run
  {
    hide RunStage, Holds, Arrives, Changes, Harmless;
    if |run| > 1 {
      PathTail(run, stages, data);
      if BuildsAll(stages[0], run[0].value) {
        BuildsAllBuilds(stages[0], run[0], run[1], data);
        BuiltPath(run[1..], stages[1..], data, after);
      } else {
        RemovingStep(stages[0], run[0], run[1], data);
        RemovingKeepsRefs(stages[0], run[0], run[1], data);
        RemovingPath(run[1..], stages[1..], data, after);
        ShrunkBack(after, run[1].input, run[0].input);
      }
    } else if |stages| > 0 && !BuildsAll(stages[0], run[0].value) {
      RemovingFailure(stages[0], run[0], after, data);
    } else if |stages| > 0 {
      BuildingFailure(stages[0], run[0], after, data);
    }
  }

  /** What the run leaves in the input, exactly: a pipeline that only removes keys from what it reads leaves the
      input as it is if and only if no clip that an AFFINE comes to has one of its keys. */
  lemma RunKeepsInputIff(run: seq<Moment>, stages: seq<Stage>, data: seq<ClipObject>, before: seq<Clip>,
                         after: seq<Clip>)
    requires IsRun(run, stages, data, before, after)
    ensures Spares(stages, Flat(V.Rows(before))) ==> after == before
    ensures Removing(stages, Flat(V.Rows(before))) ==> Shrunk(after, before)
    ensures Removing(stages, Flat(V.Rows(before))) ==> (after == before <==> Spares(stages, Flat(V.Rows(before))))
  {
    if Spares(stages, Flat(V.Rows(before))) { SparedPath(run, stages, data, after); }
    if Removing(stages, Flat(V.Rows(before))) { RemovingPath(run, stages, data, after); }
  }

  /** A pipeline of GROUP, LEAVEONE, FILTER and AFFINE returns objects of its input and no others. */
  lemma {:induction false} SelectingPath(run: seq<Moment>, stages: seq<Stage>, data: seq<ClipObject>)
    requires IsPath(run, stages, data) && AllOfInput(run[0], data)
    requires forall i | 0 <= i < |run| - 1 :: Selects(stages[i])
    ensures AllOfInput(Last(run), data)
    decreases run
  {
    hide RunStage, Holds, Changes;
    if |run| > 1 {
      PathTail(run, stages, data);
      SelectingPath(run[1..], stages[1..], data);
    }
  }

  // ----- transformationCompose ----------------------------------------------

  /** Every AFFINE comes after a stage that builds its clips. */
  predicate Staged(stages: seq<Stage>, built: bool) {
    stages == []
    || ((stages[0].AFFINE? ==> built) && Staged(stages[1..], built || Builds(stages[0])))
  }

  /** Such a pipeline spares any input. */
  lemma {:induction false} StagedSpares(stages: seq<Stage>, v: Data)
    requires Staged(stages, false)
    ensures Spares(stages, v)
    decreases stages
  {
    hide RunStage, BuildsAll;
    if stages != [] && !BuildsAll(stages[0], v) {
      assert !Builds(stages[0]) by { BuildersBuildAll(stages[0], v); }
      match RunStage(stages[0], v)
      case Err(_) =>
      case Ok(w) => StagedSpares(stages[1..], w);
    }
  }

  lemma BuildersBuildAll(stage: Stage, v: Data)
    ensures Builds(stage) ==> BuildsAll(stage, v)
  {
  }

  ghost function Now(d: HeapData, data: seq<ClipObject>): Moment
    reads Refs(d), data
  {
    Moment(d, Read(d), Clips(data))
  }

  lemma NowHolds(d: HeapData, data: seq<ClipObject>)
    ensures Holds(Now(d, data), data)
  {
  }

  twostate lemma SameClipsReadSame(d: HeapData)
    requires forall o | o in Refs(d) :: o.fields == old(o.fields)
    ensures Read(d) == old(Read(d))
  {
    match d
    case FlatRefs(clips) =>
    case GroupedRefs(groups) =>
      forall i | 0 <= i < |groups| ensures ReadList(groups[i]) == old(ReadList(groups[i])) {
        assert groups[i] in groups && forall o: ClipObject | o in groups[i] :: o in Refs(d);
      }
  }

  lemma ReadShape(d: HeapData)
    ensures Read(d).Flat? <==> d.FlatRefs?
  {
  }

  lemma StartHolds(data: seq<ClipObject>)
    ensures Now(FlatRefs(data), data) == Moment(FlatRefs(data), Flat(V.Rows(Clips(data))), Clips(data))
    ensures forall stages :: IsPath([Now(FlatRefs(data), data)], stages, data)
  {
    RowsAreRead(data);
    NowHolds(FlatRefs(data), data);
  }

  /** The clip of a reference is one of the clips that are read. */
  lemma ReadOccurs(d: HeapData, o: ClipObject)
    requires o in Refs(d)
    ensures Some(o.fields) in AllItems(Read(d))
  {
    NowHolds(d, [o]);
    ReachingClip(Now(d, [o]), [o], 0);
  }

  lemma NothingToFlatten(stage: Stage, d: HeapData)
    requires stage.FLATTEN? && FlattensNothing(stage, Read(d))
    ensures AllPassedOn(Flattened(d), stage.flattenedKey)
  {
    hide Read, Entries;
    forall o: ClipObject | o in Flattened(d) ensures PassedOn(o, stage.flattenedKey) {
      RefIsFlattened(d, o);
      ReadOccurs(d, o);
    }
  }

  twostate lemma MovesArrive(new stage: Stage, d: HeapData, new r: HeapData, new data: seq<ClipObject>, new m: Moment)
    requires Moves(stage, d, Ok(r)) && forall o | o in data :: !fresh(o)
    requires |m.input| == |data| && m.refs == d && (stage.FLATTEN? || stage.FILTER? ==> m == Now(d, data))
    ensures Arrives(stage, m, Now(r, data), data)
    ensures OnceEach(d) || Builds(stage) ==> OnceEach(r)
    ensures forall o | o in Refs(r) :: o in Refs(d) || fresh(o)
  {
    hide Read, Entries, Passes;
    if stage.FLATTEN? {
      forall k | 0 <= k < |data|
        ensures data[k] in Refs(r) <==> data[k] in Refs(d) && PassedOn(data[k], stage.flattenedKey)
      {
        assert data[k] in data;
        RefIsFlattened(d, data[k]);
        RefIsFlattened(r, data[k]);
      }
      if FlattensNothing(stage, m.value) { NothingToFlatten(stage, d); }
    }
    if stage.FILTER? && d.FlatRefs? {
      forall k | 0 <= k < |data|
        ensures data[k] in Refs(r) <==> data[k] in Refs(d) && PassesAll(stage.filters)(m.input[k])
      {
        assert data[k] in data;
        RefIsFlattened(d, data[k]);
        RefIsFlattened(r, data[k]);
      }
    }
  }

  twostate lemma OnlyAffineChanges(new stage: Stage, d: HeapData, new r: HeapData, new data: seq<ClipObject>,
                                   new m: Moment)
    requires forall o | o in data :: !fresh(o) && (o.fields == old(o.fields) || (stage.AFFINE? && o in Refs(d)))
    requires |m.input| == |data| && m.refs == d && forall k | 0 <= k < |data| ::
      data[k] in data && m.input[k] == old(data[k].fields)
    requires stage.AFFINE? ==> Affines(d, stage.params, Ok(r))
    ensures Changes(stage, m, Clips(data), data)
  {
    hide AffineOf;
    forall k | 0 <= k < |data| ensures data[k] in data {}
  }

  twostate lemma FailureKeeps(new stage: Stage, d: HeapData, new r: Result<HeapData, Error>, new data: seq<ClipObject>,
                              new m: Moment)
    requires r.Err? && m.refs == d && RunStage(stage, m.value).Err? && m.value == old(Read(d))
    requires forall o | o in data :: !fresh(o) && (o.fields == old(o.fields) || (stage.AFFINE? && o in Refs(d)))
    requires |m.input| == |data| && forall k | 0 <= k < |data| :: data[k] in data && m.input[k] == old(data[k].fields)
    requires stage.AFFINE? ==> Affines(d, stage.params, r)
    ensures Fails(stage, m, Clips(data), data)
  {
    hide RunStage, StopsAt;
    forall k | 0 <= k < |data| ensures data[k] in data {}
    if stage.AFFINE? && d.FlatRefs? {
      var n: nat :| StopsAt(stage.params, old(ReadList(d.refs)), ReadList(d.refs), n);
      assert HoldsList(d.refs, ReadList(d.refs), data, Clips(data));
    }
  }

  /** One stage, as a step of the pure model. */
  method Advance(stage: Stage, d: HeapData, data: seq<ClipObject>) returns (r: Result<HeapData, Error>)
    requires stage.AFFINE? ==> OnceEach(d)
    modifies if stage.AFFINE? then Refs(d) else {}
    ensures Agrees(r, RunStage(stage, old(Read(d))))
    ensures r.Ok? && (OnceEach(d) || Builds(stage)) ==> OnceEach(r.value)
    ensures r.Ok? ==> forall o | o in Refs(r.value) :: o in Refs(d) || fresh(o)
    ensures r.Ok? ==> Step(stage, old(Now(d, data)), Now(r.value, data), data)
    ensures r.Err? ==> Fails(stage, old(Now(d, data)), Clips(data), data)
  {
    hide Read, RunStage, Holds, Arrives, Changes, Moves, Affines, OnceEach, Builds, Flattened;
    ghost var m := Now(d, data);
    NowHolds(d, data);
    ReadShape(d);
    r := Transform(stage, d);
    if r.Ok? {
      if stage.FLATTEN? || stage.FILTER? { SameClipsReadSame(d); }
      MovesArrive(stage, d, r.value, data, m);
      OnlyAffineChanges(stage, d, r.value, data, m);
      NowHolds(r.value, data);
    } else {
      FailureKeeps(stage, d, r, data, m);
    }
  }

  lemma PathPush(run: seq<Moment>, stages: seq<Stage>, data: seq<ClipObject>, next: Moment)
    requires IsPath(run, stages, data) && |run| <= |stages| && Step(stages[|run| - 1], Last(run), next, data)
    ensures IsPath(run + [next], stages, data)
  {
    hide Step, Holds;
    var longer := run + [next];
    forall i | 0 <= i < |longer| - 1 ensures Step(stages[i], longer[i], longer[i + 1], data) {
      assert i < |run| - 1 ==> Step(stages[i], run[i], run[i + 1], data);
    }
  }

  lemma RowsOnce(data: seq<ClipObject>)
    requires Distinct(data)
    ensures OnceEach(FlatRefs(data))
  {
    DistinctIsOnce(data);
  }

  /** transformationCompose: what it returns, and moment by moment what it does to the objects of its input. */
  method ComposeAll(stages: seq<Stage>, data: seq<ClipObject>)
    returns (r: Result<HeapData, Error>, ghost run: seq<Moment>)
    requires Distinct(data) || Staged(stages, false)
    modifies data
    ensures Agrees(r, Compose(stages, Flat(old(V.Rows(Clips(data))))))
    ensures IsRun(run, stages, data, old(Clips(data)), Clips(data)) && run != []
    ensures r.Ok? ==> |run| == |stages| + 1 && Last(run) == Now(r.value, data)
    ensures r.Ok? ==> forall o | o in Refs(r.value) :: o in data || fresh(o)
    ensures r.Err? ==> |run| <= |stages| && RunStage(stages[|run| - 1], Last(run).value) == Err(r.error)
    ensures Spares(stages, Flat(old(V.Rows(Clips(data))))) ==> Clips(data) == old(Clips(data))
    ensures Removing(stages, Flat(old(V.Rows(Clips(data))))) ==>
              (Clips(data) == old(Clips(data)) <==> Spares(stages, Flat(old(V.Rows(Clips(data))))))
  {
    ghost var before := Clips(data);
    hide RunStage, ReadList, ReadGroups, Concatenated, Distinct, Step, Holds, Affines, Read, IsPath, Spares, Removing;
    var d := FlatRefs(data);
    StartHolds(data);
    if Distinct(data) { RowsOnce(data); }
    assert stages[0..] == stages;
    run := [Now(d, data)];
    for i := 0 to |stages|
      invariant |run| == i + 1 && IsPath(run, stages, data)
      invariant run[0] == old(Moment(FlatRefs(data), Flat(V.Rows(Clips(data))), Clips(data)))
      invariant Last(run) == Now(d, data)
      invariant forall o | o in Refs(d) :: o in data || fresh(o)
      invariant OnceEach(d) || Staged(stages[i..], false)
    {
      assert stages[i..][0] == stages[i] && stages[i..][1..] == stages[i + 1..];
      var next := Advance(stages[i], d, data);
      match next
      case Err(e) =>
        PathComputes(run, stages, data);
        RunKeepsInputIff(run, stages, data, before, Clips(data));
        return Err(e), run;
      case Ok(value) =>
        PathPush(run, stages, data, Now(value, data));
        run := run + [Now(value, data)];
        d := value;
    }
    PathComputes(run, stages, data);
    RunKeepsInputIff(run, stages, data, before, Clips(data));
    return Ok(d), run;
  }

  // ----- transformationAggregate --------------------------------------------

  datatype Pipeline = Pipeline(name: string, stages: seq<Stage>)

  /** Runs of the first pipelines one after the other, each from the input the one before left. */
  ghost predicate Chained(runs: seq<seq<Moment>>, inputs: seq<seq<Clip>>, pipelines: seq<Pipeline>,
                          data: seq<ClipObject>) {
    && |inputs| == |runs| + 1 && |runs| <= |pipelines|
    && forall k | 0 <= k < |runs| :: IsRun(runs[k], pipelines[k].stages, data, inputs[k], inputs[k + 1])
  }

  /** Objects that are not of the input still hold the clips of the moment. */
  ghost predicate SameOutside(m: Moment, data: seq<ClipObject>)
    reads Refs(m.refs)
  {
    match m.refs
    case FlatRefs(refs) => m.value.Flat? && SameOutsideList(refs, m.value.items, data)
    case GroupedRefs(groups) =>
      && m.value.Grouped? && |groups| == |m.value.groups|
      && forall g, i | g in groups && 0 <= i < |groups| && groups[i] == g ::
           assert forall o: ClipObject | o in g :: o in GroupRefs(groups);
           SameOutsideList(g, m.value.groups[i], data)
  }

  ghost predicate SameOutsideList(refs: seq<Ref>, items: seq<Item>, data: seq<ClipObject>)
    reads refs
  {
    |refs| == |items| && forall j | 0 <= j < |refs| && refs[j] !in data :: items[j] == ItemOf(refs[j])
  }

  twostate lemma StillOutside(kept: (Moment, seq<ClipObject>))
    requires forall o | o in Refs(kept.0.refs) && o !in kept.1 :: o.fields == old(o.fields)
    requires old(SameOutside(kept.0, kept.1))
    ensures SameOutside(kept.0, kept.1)
  {
    var (m, data) := kept;
    if m.refs.GroupedRefs? {
      var groups, values := m.refs.groups, m.value.groups;
      forall g, i | g in groups && 0 <= i < |groups| && groups[i] == g ensures SameOutsideList(g, values[i], data) {
        assert old(allocated(values[i])) by { assert old(allocated(values)); }
        assert old(SameOutsideList(groups[i], values[i], data));
        assert forall o: ClipObject | o in g :: o in GroupRefs(groups);
      }
    }
  }

  lemma SameNow(d: HeapData, data: seq<ClipObject>)
    ensures SameOutside(Now(d, data), data)
  {
  }

  /** Each entry holds what its pipeline gives alone on the input. */
  ghost predicate EntriesAgree(aggregation: map<string, HeapData>, pipelines: seq<Pipeline>, input: seq<Clip>)
    reads set k, o | k in aggregation && o in Refs(aggregation[k]) :: o
  {
    forall i | 0 <= i < |pipelines| && pipelines[i].name in aggregation ::
      Compose(pipelines[i].stages, Flat(V.Rows(input))) == Ok(Read(aggregation[pipelines[i].name]))
  }

  /** Each of the first pipelines spares the input, read alone. */
  ghost predicate AllSpare(pipelines: seq<Pipeline>, ran: nat, input: seq<Clip>) {
    ran <= |pipelines| && forall k | 0 <= k < ran :: Spares(pipelines[k].stages, Flat(V.Rows(input)))
  }

  /** Each of the first pipelines only removes keys from what it reads. */
  ghost predicate AllRemove(pipelines: seq<Pipeline>, ran: nat, inputs: seq<seq<Clip>>) {
    && ran <= |pipelines| && ran <= |inputs|
    && forall k | 0 <= k < ran :: Removing(pipelines[k].stages, Flat(V.Rows(inputs[k])))
  }

  lemma {:induction false} SparedChain(
      runs: seq<seq<Moment>>, inputs: seq<seq<Clip>>, pipelines: seq<Pipeline>, data: seq<ClipObject>, n: nat)
    requires Chained(runs, inputs, pipelines, data) && n <= |runs| && AllSpare(pipelines, n, inputs[0])
    ensures forall k | 0 <= k <= n :: inputs[k] == inputs[0]
  {
    hide IsRun, Spares, Removing;
    if n > 0 {
      SparedChain(runs, inputs, pipelines, data, n - 1);
      RunKeepsInputIff(runs[n - 1], pipelines[n - 1].stages, data, inputs[n - 1], inputs[n]);
    }
  }

  lemma {:induction false} RemovingChain(
      runs: seq<seq<Moment>>, inputs: seq<seq<Clip>>, pipelines: seq<Pipeline>, data: seq<ClipObject>, n: nat)
    requires Chained(runs, inputs, pipelines, data) && n <= |runs|
    requires AllRemove(pipelines, n, inputs)
    ensures Shrunk(inputs[n], inputs[0])
    ensures inputs[n] == inputs[0] ==> AllSpare(pipelines, n, inputs[0])
  {
    assert Shrunk(inputs[0], inputs[0]);
    hide IsRun, Spares, Removing, Shrunk;
    if n > 0 {
      RemovingChain(runs, inputs, pipelines, data, n - 1);
      RunKeepsInputIff(runs[n - 1], pipelines[n - 1].stages, data, inputs[n - 1], inputs[n]);
      ShrunkBack(inputs[n], inputs[n - 1], inputs[0]);
    }
  }

  /** Pipelines that only remove keys from what they read leave the input as it is if and only if each of them
      spares it, read alone. */
  lemma ChainKeepsInputIff(runs: seq<seq<Moment>>, inputs: seq<seq<Clip>>, pipelines: seq<Pipeline>,
                           data: seq<ClipObject>)
    requires Chained(runs, inputs, pipelines, data)
    ensures AllSpare(pipelines, |runs|, inputs[0]) ==> forall k | 0 <= k <= |runs| :: inputs[k] == inputs[0]
    ensures AllRemove(pipelines, |runs|, inputs) ==>
              (inputs[|runs|] == inputs[0] <==> AllSpare(pipelines, |runs|, inputs[0]))
  {
    hide IsRun, Removing, Shrunk, AllSpare, AllRemove;
    if AllSpare(pipelines, |runs|, inputs[0]) { SparedChain(runs, inputs, pipelines, data, |runs|); }
    if AllRemove(pipelines, |runs|, inputs) {
      RemovingChain(runs, inputs, pipelines, data, |runs|);
    }
  }

  lemma ReadsAsThen(m: Moment, data: seq<ClipObject>)
    requires Holds(m, data) && SameOutside(m, data) && m.input == Clips(data)
    ensures Read(m.refs) == m.value
  {
    match m.refs
    case FlatRefs(refs) => ListReadsAsThen(refs, m.value.items, data);
    case GroupedRefs(groups) =>
      forall i | 0 <= i < |groups| ensures ReadList(groups[i]) == m.value.groups[i] {
        assert groups[i] in groups;
        ListReadsAsThen(groups[i], m.value.groups[i], data);
      }
  }

  lemma ListReadsAsThen(refs: seq<Ref>, items: seq<Item>, data: seq<ClipObject>)
    requires HoldsList(refs, items, data, Clips(data)) && SameOutsideList(refs, items, data)
    ensures ReadList(refs) == items
  {
    forall j | 0 <= j < |refs| ensures ItemOf(refs[j]) == items[j] {
      if refs[j] in data {
        var k :| 0 <= k < |data| && data[k] == refs[j];
      }
    }
  }

  lemma SparedEntriesAgree(aggregation: map<string, HeapData>, runs: seq<seq<Moment>>, inputs: seq<seq<Clip>>,
                           pipelines: seq<Pipeline>, data: seq<ClipObject>)
    requires Chained(runs, inputs, pipelines, data) && |runs| == |pipelines| && AllSpare(pipelines, |runs|, inputs[0])
    requires Named(aggregation, runs, pipelines) && Kept(runs, pipelines, data, |runs|)
    requires inputs[|runs|] == Clips(data)
    ensures EntriesAgree(aggregation, pipelines, inputs[0])
  {
    hide Compose, Read, Spares, SameOutside, ReadList, AllSpare;
    ChainKeepsInputIff(runs, inputs, pipelines, data);
    forall i | 0 <= i < |pipelines|
      ensures Compose(pipelines[i].stages, Flat(V.Rows(inputs[0]))) == Ok(Read(aggregation[pipelines[i].name]))
    {
      RunHolds(runs[i], pipelines[i].stages, data, inputs[i], inputs[i + 1]);
      ReadsAsThen(Last(runs[i]), data);
    }
  }

  /** A run to the end: what it computes, and the input it leaves. */
  lemma RunHolds(run: seq<Moment>, stages: seq<Stage>, data: seq<ClipObject>, before: seq<Clip>, after: seq<Clip>)
    requires IsRun(run, stages, data, before, after) && |run| == |stages| + 1
    ensures Compose(stages, Flat(V.Rows(before))) == Ok(Last(run).value)
    ensures Holds(Last(run), data) && Last(run).input == after
  {
    PathComputes(run, stages, data);
    assert stages[|stages|..] == [];
    if |run| > 1 { assert Step(stages[|run| - 2], run[|run| - 2], Last(run), data); }
  }

  /** The first n runs went to the end, and what they built is as they left it. */
  ghost predicate Kept(runs: seq<seq<Moment>>, pipelines: seq<Pipeline>, data: seq<ClipObject>, n: nat)
    reads set run, o | run in runs && run != [] && o in Refs(Last(run).refs) :: o
  {
    && n <= |runs| && n <= |pipelines|
    && forall i | 0 <= i < n ::
         |runs[i]| == |pipelines[i].stages| + 1 && runs[i] in runs && SameOutside(Last(runs[i]), data)
  }

  predicate NamesDistinct(pipelines: seq<Pipeline>) {
    forall i, j | 0 <= i < j < |pipelines| :: pipelines[i].name != pipelines[j].name
  }

  /** The entries are the results of the runs under the names of the pipelines. */
  ghost predicate Named(aggregation: map<string, HeapData>, runs: seq<seq<Moment>>, pipelines: seq<Pipeline>) {
    && |runs| <= |pipelines|
    && (forall k :: k in aggregation <==> exists i | 0 <= i < |runs| :: pipelines[i].name == k)
    && forall i | 0 <= i < |runs| ::
         runs[i] != [] && pipelines[i].name in aggregation && Last(runs[i]).refs == aggregation[pipelines[i].name]
  }

  lemma NamedPush(aggregation: map<string, HeapData>, runs: seq<seq<Moment>>, pipelines: seq<Pipeline>,
                  run: seq<Moment>)
    requires |runs| < |pipelines| && Named(aggregation, runs, pipelines[..|runs|]) && run != []
    requires NamesDistinct(pipelines)
    ensures Named(aggregation[pipelines[|runs|].name := Last(run).refs], runs + [run], pipelines[..|runs| + 1])
  {
    var more, ps := aggregation[pipelines[|runs|].name := Last(run).refs], pipelines[..|runs| + 1];
    forall k ensures k in more <==> exists i | 0 <= i < |runs + [run]| :: ps[i].name == k {
      if i :| 0 <= i < |runs| && pipelines[..|runs|][i].name == k { assert ps[i].name == k; }
      assert ps[|runs|].name in more;
    }
  }

  twostate lemma StillKept(kept: (seq<seq<Moment>>, seq<Pipeline>, seq<ClipObject>))
    requires old(Kept(kept.0, kept.1, kept.2, |kept.0|))
    requires forall o: ClipObject | old(allocated(o)) && o !in kept.2 :: o.fields == old(o.fields)
    ensures Kept(kept.0, kept.1, kept.2, |kept.0|)
  {
    hide SameOutside;
    var (runs, pipelines, data) := kept;
    forall i | 0 <= i < |runs| ensures SameOutside(Last(runs[i]), data) {
      assert runs[i] in runs && old(SameOutside(Last(runs[i]), data));
      StillOutside((Last(runs[i]), data));
    }
  }

  /** Every pipeline ran on the input as the ones before it left it, up to the first failure; the entries are what the
      runs returned, and of their objects those of the input hold what the last run left in them. */
  ghost predicate Aggregated(r: Result<map<string, HeapData>, Error>, runs: seq<seq<Moment>>, inputs: seq<seq<Clip>>,
                             pipelines: seq<Pipeline>, data: seq<ClipObject>)
    reads data, set run, o | run in runs && run != [] && o in Refs(Last(run).refs) :: o
  {
    && Chained(runs, inputs, pipelines, data)
    && inputs[|runs|] == Clips(data)
    && match r
       case Ok(aggregation) =>
         |runs| == |pipelines| && Kept(runs, pipelines, data, |runs|) && Named(aggregation, runs, pipelines)
       case Err(e) =>
         && runs != [] && Kept(runs, pipelines, data, |runs| - 1)
         && Compose(pipelines[|runs| - 1].stages, Flat(V.Rows(inputs[|runs| - 1]))) == Err(e)
  }

  lemma NothingRun(data: seq<ClipObject>)
    ensures Aggregated(Ok(map[]), [], [Clips(data)], [], data)
  {
  }

  lemma ChainedPush(runs: seq<seq<Moment>>, inputs: seq<seq<Clip>>, pipelines: seq<Pipeline>, data: seq<ClipObject>,
                    run: seq<Moment>, after: seq<Clip>)
    requires |runs| < |pipelines| && Chained(runs, inputs, pipelines[..|runs|], data)
    requires IsRun(run, pipelines[|runs|].stages, data, inputs[|runs|], after)
    ensures Chained(runs + [run], inputs + [after], pipelines[..|runs| + 1], data)
  {
    hide IsRun;
  }

  lemma KeptPush(runs: seq<seq<Moment>>, pipelines: seq<Pipeline>, data: seq<ClipObject>, run: seq<Moment>)
    requires |runs| < |pipelines| && Kept(runs, pipelines[..|runs|], data, |runs|) && run != []
    ensures Kept(runs + [run], pipelines[..|runs| + 1], data, |runs|)
    ensures |run| == |pipelines[|runs|].stages| + 1 && SameOutside(Last(run), data) ==>
              Kept(runs + [run], pipelines[..|runs| + 1], data, |runs| + 1)
  {
    hide SameOutside;
    forall i | 0 <= i < |runs + [run]| ensures (runs + [run])[i] in runs + [run] {}
  }

  lemma NextEntry(aggregation: map<string, HeapData>, runs: seq<seq<Moment>>, inputs: seq<seq<Clip>>,
                  pipelines: seq<Pipeline>, data: seq<ClipObject>, run: seq<Moment>, r: Result<HeapData, Error>)
    requires |runs| < |pipelines| && Kept(runs, pipelines[..|runs|], data, |runs|)
    requires Chained(runs, inputs, pipelines[..|runs|], data) && Named(aggregation, runs, pipelines[..|runs|])
    requires IsRun(run, pipelines[|runs|].stages, data, inputs[|runs|], Clips(data)) && run != []
    requires r.Ok? ==> |run| == |pipelines[|runs|].stages| + 1 && Last(run) == Now(r.value, data)
    requires r.Err? ==> Compose(pipelines[|runs|].stages, Flat(V.Rows(inputs[|runs|]))) == Err(r.error)
    requires NamesDistinct(pipelines)
    ensures var more := if r.Ok? then Ok(aggregation[pipelines[|runs|].name := r.value]) else Err(r.error);
            Aggregated(more, runs + [run], inputs + [Clips(data)], pipelines[..|runs| + 1], data)
  {
    ChainedPush(runs, inputs, pipelines, data, run, Clips(data));
    KeptPush(runs, pipelines, data, run);
    assert |inputs| == |runs| + 1;
    hide Compose, Read, IsRun, ReadList, SameOutside, Kept, Chained, Named;
    match r
    case Ok(value) =>
      SameNow(value, data);
      NamedPush(aggregation, runs, pipelines, run);
    case Err(_) =>
  }

  lemma AggregatedParts(aggregation: map<string, HeapData>, runs: seq<seq<Moment>>, inputs: seq<seq<Clip>>,
                        pipelines: seq<Pipeline>, data: seq<ClipObject>)
    requires Aggregated(Ok(aggregation), runs, inputs, pipelines, data)
    ensures Chained(runs, inputs, pipelines, data) && |inputs| == |runs| + 1 && inputs[|runs|] == Clips(data)
    ensures |runs| == |pipelines| && Kept(runs, pipelines, data, |runs|) && Named(aggregation, runs, pipelines)
  {
  }

  lemma AggregatedSoFar(e: Error, runs: seq<seq<Moment>>, inputs: seq<seq<Clip>>,
                        pipelines: seq<Pipeline>, data: seq<ClipObject>, n: nat)
    requires n <= |pipelines| && Aggregated(Err(e), runs, inputs, pipelines[..n], data)
    ensures Aggregated(Err(e), runs, inputs, pipelines, data)
  {
    hide IsRun, SameOutside, Compose, ReadList;
  }

  lemma AggregatedKeepsInputIff(r: Result<map<string, HeapData>, Error>, runs: seq<seq<Moment>>, inputs: seq<seq<Clip>>,
                                pipelines: seq<Pipeline>, data: seq<ClipObject>)
    requires Aggregated(r, runs, inputs, pipelines, data)
    ensures AllSpare(pipelines, |runs|, inputs[0]) ==>
              Clips(data) == inputs[0] && (r.Ok? ==> EntriesAgree(r.value, pipelines, inputs[0]))
    ensures AllRemove(pipelines, |runs|, inputs) ==>
              (Clips(data) == inputs[0] <==> AllSpare(pipelines, |runs|, inputs[0]))
  {
    hide Compose, Read, IsRun, ReadList, SameOutside, Kept, AllSpare, AllRemove, EntriesAgree, Named;
    ChainKeepsInputIff(runs, inputs, pipelines, data);
    if AllSpare(pipelines, |runs|, inputs[0]) && r.Ok? { SparedEntriesAgree(r.value, runs, inputs, pipelines, data); }
  }

  /** A list read earlier and now: the input's objects have the input's clips of the time, the others are the same. */
  ghost predicate RefreshedList(refs: seq<Ref>, data: seq<ClipObject>, earlier: seq<Item>, before: seq<Clip>,
                                now: seq<Item>, after: seq<Clip>)
    requires |before| == |after| == |data|
  {
    && |earlier| == |now| == |refs|
    && (forall j, i | 0 <= j < |refs| && 0 <= i < |data| && refs[j] == data[i] ::
          earlier[j] == Some(before[i]) && now[j] == Some(after[i]))
    && forall j | 0 <= j < |refs| && refs[j] !in data :: now[j] == earlier[j]
  }

  ghost predicate Refreshed(d: HeapData, data: seq<ClipObject>, m: Moment, now: Moment) {
    && |m.input| == |now.input| == |data|
    && match d
       case FlatRefs(refs) =>
         m.value.Flat? && now.value.Flat?
         && RefreshedList(refs, data, m.value.items, m.input, now.value.items, now.input)
       case GroupedRefs(groups) =>
         && m.value.Grouped? && now.value.Grouped? && |groups| == |m.value.groups| == |now.value.groups|
         && forall i | 0 <= i < |groups| ::
              RefreshedList(groups[i], data, m.value.groups[i], m.input, now.value.groups[i], now.input)
  }

  lemma RefreshedNow(m: Moment, data: seq<ClipObject>)
    requires Holds(m, data) && SameOutside(m, data)
    ensures Refreshed(m.refs, data, m, Now(m.refs, data))
  {
    NowHolds(m.refs, data);
    if m.refs.GroupedRefs? {
      var groups, now := m.refs.groups, Now(m.refs, data);
      forall i | 0 <= i < |groups|
        ensures RefreshedList(groups[i], data, m.value.groups[i], m.input, now.value.groups[i], now.input)
      {
        assert groups[i] in groups && SameOutsideList(groups[i], m.value.groups[i], data);
      }
    }
  }

  lemma EntryRun(aggregation: map<string, HeapData>, runs: seq<seq<Moment>>, inputs: seq<seq<Clip>>,
                 pipelines: seq<Pipeline>, data: seq<ClipObject>, k: nat)
    requires Aggregated(Ok(aggregation), runs, inputs, pipelines, data) && k < |pipelines|
    ensures |runs| == |pipelines| && |inputs| == |runs| + 1 && inputs[|runs|] == Clips(data)
    ensures IsRun(runs[k], pipelines[k].stages, data, inputs[k], inputs[k + 1])
    ensures |runs[k]| == |pipelines[k].stages| + 1 && SameOutside(Last(runs[k]), data)
    ensures pipelines[k].name in aggregation && Last(runs[k]).refs == aggregation[pipelines[k].name]
  {
    hide IsRun, SameOutside, ReadList;
  }

  lemma SelectingRun(run: seq<Moment>, stages: seq<Stage>, data: seq<ClipObject>, before: seq<Clip>, after: seq<Clip>)
    requires IsRun(run, stages, data, before, after) && forall s | s in stages :: Selects(s)
    ensures AllOfInput(Last(run), data)
  {
    hide Step, Selects;
    SelectingPath(run, stages, data);
  }

  /** What the later pipelines do to an entry: when its pipeline ended it was that pipeline's result on the input of
      the time; at the return its objects that are the input's read as the input was left at the end. */
  lemma EntryAtReturn(aggregation: map<string, HeapData>, runs: seq<seq<Moment>>, inputs: seq<seq<Clip>>,
                      pipelines: seq<Pipeline>, data: seq<ClipObject>, k: nat)
    requires Aggregated(Ok(aggregation), runs, inputs, pipelines, data) && k < |pipelines|
    ensures pipelines[k].name in aggregation && runs[k] != []
    ensures var entry, m := aggregation[pipelines[k].name], Last(runs[k]);
      && Compose(pipelines[k].stages, Flat(V.Rows(inputs[k]))) == Ok(m.value) && m.input == inputs[k + 1]
      && Now(entry, data).input == inputs[|pipelines|]
      && Refreshed(entry, data, m, Now(entry, data))
    ensures (forall s | s in pipelines[k].stages :: Selects(s)) ==>
              forall o | o in Refs(aggregation[pipelines[k].name]) :: o in data
  {
    EntryRun(aggregation, runs, inputs, pipelines, data, k);
    hide Compose, Read, Holds, SameOutside, Refreshed, Aggregated, IsRun, Selects, ReadList;
    RunHolds(runs[k], pipelines[k].stages, data, inputs[k], inputs[k + 1]);
    RefreshedNow(Last(runs[k]), data);
    if forall s | s in pipelines[k].stages :: Selects(s) {
      SelectingRun(runs[k], pipelines[k].stages, data, inputs[k], inputs[k + 1]);
    }
  }

  predicate AllStaged(pipelines: seq<Pipeline>) {
    forall i | 0 <= i < |pipelines| :: Staged(pipelines[i].stages, false)
  }

  lemma StagedAt(pipelines: seq<Pipeline>, i: nat)
    requires AllStaged(pipelines) && i < |pipelines|
    ensures Staged(pipelines[i].stages, false)
  {
    hide Staged;
  }

  lemma StagedAllSpare(pipelines: seq<Pipeline>, input: seq<Clip>)
    requires AllStaged(pipelines)
    ensures forall n: nat | n <= |pipelines| :: AllSpare(pipelines, n, input)
  {
    hide Staged, Spares;
    forall k | 0 <= k < |pipelines| ensures Spares(pipelines[k].stages, Flat(V.Rows(input))) {
      StagedSpares(pipelines[k].stages, Flat(V.Rows(input)));
    }
  }

  /** One pipeline more. */
  method RunNext(aggregation: map<string, HeapData>, pipelines: seq<Pipeline>, i: nat, data: seq<ClipObject>,
                 ghost runs: seq<seq<Moment>>, ghost inputs: seq<seq<Clip>>)
    returns (r: Result<HeapData, Error>, ghost more: seq<seq<Moment>>, ghost left: seq<seq<Clip>>)
    requires i < |pipelines| && NamesDistinct(pipelines) && (Distinct(data) || AllStaged(pipelines))
    requires |runs| == i && inputs != [] && Aggregated(Ok(aggregation), runs, inputs, pipelines[..i], data)
    modifies data
    ensures |more| == i + 1 && left != [] && left[0] == inputs[0]
    ensures r.Ok? ==>
              Aggregated(Ok(aggregation[pipelines[i].name := r.value]), more, left, pipelines[..i + 1], data)
    ensures r.Err? ==> Aggregated(Err(r.error), more, left, pipelines[..i + 1], data)
  {
    hide AllStaged, NamesDistinct, Compose, Read, Staged, IsRun, Clips, Distinct, Spares, Removing, SameOutside;
    hide Named, Kept, RunStage, IsPath, Chained, Aggregated;
    label Before:
    AggregatedParts(aggregation, runs, inputs, pipelines[..i], data);
    if AllStaged(pipelines) { StagedAt(pipelines, i); }
    ghost var run;
    r, run := ComposeAll(pipelines[i].stages, data);
    StillKept@Before((runs, pipelines[..i], data));
    NextEntry(aggregation, runs, inputs, pipelines, data, run, r);
    more, left := runs + [run], inputs + [Clips(data)];
  }

  /** transformationAggregate. Pipelines that spare the input give each entry as alone, and they do when every AFFINE
      comes after a stage that builds its clips; pipelines that only remove keys from what they read leave the input
      as it is only if they spare it. */
  method Aggregate(data: seq<ClipObject>, pipelines: seq<Pipeline>)
    returns (r: Result<map<string, HeapData>, Error>, ghost runs: seq<seq<Moment>>, ghost inputs: seq<seq<Clip>>)
    requires Distinct(data) || AllStaged(pipelines)
    requires NamesDistinct(pipelines)
    modifies data
    ensures pipelines == [] ==> r == Ok(map["raw" := FlatRefs(data)]) && Clips(data) == old(Clips(data))
    ensures pipelines != [] ==> Aggregated(r, runs, inputs, pipelines, data) && inputs[0] == old(Clips(data))
    ensures AllSpare(pipelines, |runs|, old(Clips(data))) ==> Clips(data) == old(Clips(data))
    ensures AllSpare(pipelines, |runs|, old(Clips(data))) && pipelines != [] && r.Ok? ==>
              EntriesAgree(r.value, pipelines, old(Clips(data)))
    ensures AllRemove(pipelines, |runs|, inputs) && pipelines != [] ==>
              (Clips(data) == old(Clips(data)) <==> AllSpare(pipelines, |runs|, old(Clips(data))))
    ensures AllStaged(pipelines) ==> Clips(data) == old(Clips(data))
    ensures AllStaged(pipelines) && pipelines != [] && r.Ok? ==>
              EntriesAgree(r.value, pipelines, old(Clips(data)))
  {
    if AllStaged(pipelines) { StagedAllSpare(pipelines, Clips(data)); }
    hide *;
    runs, inputs := [], [Clips(data)];
    if pipelines == [] { return Ok(map["raw" := FlatRefs(data)]), runs, inputs; }
    var aggregation: map<string, HeapData> := map[];
    NothingRun(data);
    for i := 0 to |pipelines|
      invariant |runs| == i && inputs != [] && inputs[0] == old(Clips(data))
      invariant Aggregated(Ok(aggregation), runs, inputs, pipelines[..i], data)
    {
      var transformed;
      transformed, runs, inputs := RunNext(aggregation, pipelines, i, data, runs, inputs);
      match transformed
      case Err(e) =>
        AggregatedSoFar(e, runs, inputs, pipelines, data, i + 1);
        AggregatedKeepsInputIff(Err(e), runs, inputs, pipelines, data);
        return Err(e), runs, inputs;
      case Ok(value) =>
        aggregation := aggregation[pipelines[i].name := value];
    }
    assert pipelines[..|pipelines|] == pipelines;
    AggregatedKeepsInputIff(Ok(aggregation), runs, inputs, pipelines, data);
    return Ok(aggregation), runs, inputs;
  }

  // ----- two pipelines over the same rows -----------------------------------

  function Removal(removed: seq<string>): Stage { AFFINE(AffineParams(removed, [], map[])) }

  /** Keep the rows that pass, and leave keys out of them. */
  function FilteredWithout(filters: seq<seq<Verifier>>, removed: seq<string>): seq<Stage> {
    [FILTER(filters), Removal(removed)]
  }

  function LeftOut(filters: seq<seq<Verifier>>): Clip -> bool { (c: Clip) => !PassesAll(filters)(c) }

  /** What such a pipeline makes of a row it is handed. */
  function Touched(filters: seq<seq<Verifier>>, removed: seq<string>): Clip -> Clip {
    (c: Clip) => if PassesAll(filters)(c) then RemoveKeys(c, removed) else c
  }

  lemma {:induction false} FilteredRows(rows: seq<Clip>, filters: seq<seq<Verifier>>)
    requires FilterItems(V.Rows(rows), filters).Ok?
    ensures FilterItems(V.Rows(rows), filters) == Ok(V.Rows(Filter(rows, PassesAll(filters))))
  {
    hide Passes;
    if rows == [] {
      assert V.Rows(rows) == [] && V.Rows(Filter(rows, PassesAll(filters))) == [];
    } else {
      V.RowsCons(rows[0], rows[1..]);
      assert rows == [rows[0]] + rows[1..];
      assert V.Rows(rows)[1..] == V.Rows(rows[1..]) && V.Rows(rows)[0] == Some(rows[0]);
      FilteredRows(rows[1..], filters);
      V.RowsCons(rows[0], Filter(rows[1..], PassesAll(filters)));
    }
  }

  lemma RemovalSucceeds(rows: seq<Clip>, removed: seq<string>)
    ensures RunStage(Removal(removed), Flat(V.Rows(rows))).Ok?
  {
    hide AffineOf;
    var p := Removal(removed).params;
    forall i | 0 <= i < |rows| ensures AffineOf(rows[i], p).Ok? { RemovalIsHarmlessIff(p, rows[i]); }
    V.TryMapOkIff(V.Rows(rows), AffineOne(p));
  }

  /** The first pipeline fails exactly where its filter does. */
  lemma FirstComputes(rows: seq<Clip>, filters: seq<seq<Verifier>>, removed: seq<string>)
    ensures var r := Compose(FilteredWithout(filters, removed), Flat(V.Rows(rows)));
            r.Ok? <==> FilterItems(V.Rows(rows), filters).Ok?
  {
    var a, b := FILTER(filters), Removal(removed);
    V.ComposeCons(a, [b], Flat(V.Rows(rows)));
    assert [a] + [b] == FilteredWithout(filters, removed);
    hide FilterItems, Compose;
    if FilterItems(V.Rows(rows), filters).Ok? {
      FilteredRows(rows, filters);
      var kept := Filter(rows, PassesAll(filters));
      RemovalSucceeds(kept, removed);
      assert [b] + [] == [b];
      hide RunStage;
      V.ComposeCons(b, [], Flat(V.Rows(kept)));
      V.ComposeNothing(RunStage(b, Flat(V.Rows(kept))).value);
    }
  }

  /** Its run takes the keys from exactly the rows that pass. */
  lemma FirstTouches(run: seq<Moment>, filters: seq<seq<Verifier>>, removed: seq<string>, data: seq<ClipObject>,
                     before: seq<Clip>, after: seq<Clip>)
    requires IsRun(run, FilteredWithout(filters, removed), data, before, after) && |run| == 3
    ensures after == Map(before, Touched(filters, removed))
  {
    var stages, p := FilteredWithout(filters, removed), Removal(removed).params;
    assert Step(stages[0], run[0], run[1], data) && Step(stages[1], run[1], run[2], data);
    hide RunStage, AffineOf, Holds, PassesAll;
    forall k | 0 <= k < |data| ensures after[k] == Touched(filters, removed)(before[k]) {
      assert data[k] in Refs(run[0].refs);
      RemovalIsHarmlessIff(p, before[k]);
    }
  }

  // ----- a later GROUP does not see them ------------------------------------

  /** Some key is found under a key that is removed. */
  predicate LosesKey(keys: seq<string>, removed: seq<string>) { exists k | k in keys :: Split(k)[0] in removed }

  lemma SplitStarts(path: string)
    ensures Split(path) != []
  {
  }

  lemma RemovedIsUnkeyed(c: Clip, keys: seq<string>, removed: seq<string>)
    requires LosesKey(keys, removed)
    ensures !HasKeys(Some(RemoveKeys(c, removed)), keys)
  {
    var k :| k in keys && Split(k)[0] in removed;
    SplitStarts(k);
    hide Split;
    assert NestedKey(Some(RemoveKeys(c, removed)), k) == Undefined;
  }

  /** Rows that pass have lost a key, and the others are as they were. */
  ghost predicate Unkeys(t: Clip -> Clip, rows: seq<Clip>, filters: seq<seq<Verifier>>, keys: seq<string>) {
    forall c | c in rows :: if PassesAll(filters)(c) then !HasKeys(Some(t(c)), keys) else t(c) == c
  }

  lemma {:induction false} GroupsAfter(rows: seq<Clip>, t: Clip -> Clip, filters: seq<seq<Verifier>>, keys: seq<string>)
    requires Unkeys(t, rows, filters, keys)
    ensures GroupUp(V.Rows(Map(rows, t)), GroupKey(keys))
         == GroupUp(V.Rows(Filter(rows, LeftOut(filters))), GroupKey(keys))
  {
    hide PassesAll, HasKeys;
    if rows != [] {
      var front, last := rows[..|rows| - 1], rows[|rows| - 1];
      assert rows == front + [last];
      GroupsAfter(front, t, filters, keys);
      FilterConcat(front, [last], LeftOut(filters));
      var all, left := V.Rows(Map(rows, t)), Filter(front, LeftOut(filters));
      assert all[..|all| - 1] == V.Rows(Map(front, t));
      if PassesAll(filters)(last) {
        assert Filter(rows, LeftOut(filters)) == left;
      } else {
        assert Filter(rows, LeftOut(filters)) == left + [last];
        assert V.Rows(left + [last])[..|left|] == V.Rows(left);
      }
    } else {
      assert V.Rows(Map(rows, t)) == [] && V.Rows(Filter(rows, LeftOut(filters))) == [];
    }
  }

  lemma LeftOutRows(rows: seq<Clip>, filters: seq<seq<Verifier>>)
    ensures forall c :: Some(c) in V.Rows(Filter(rows, LeftOut(filters))) <==> c in rows && !PassesAll(filters)(c)
  {
    hide PassesAll;
    var left := Filter(rows, LeftOut(filters));
    forall c ensures Some(c) in V.Rows(left) <==> c in rows && !PassesAll(filters)(c) {
      FilterMember(rows, LeftOut(filters), c);
      RowsMember(left, c);
    }
  }

  lemma RowsMember(rows: seq<Clip>, c: Clip)
    ensures Some(c) in V.Rows(rows) <==> c in rows
    ensures None !in V.Rows(rows)
  {
    if c in rows {
      var i :| 0 <= i < |rows| && rows[i] == c;
      assert V.Rows(rows)[i] == Some(c);
    }
  }

  lemma GroupableAfter(rows: seq<Clip>, t: Clip -> Clip, filters: seq<seq<Verifier>>, keys: seq<string>)
    requires Unkeys(t, rows, filters, keys)
    ensures (forall item | item in V.Rows(Map(rows, t)) :: IsGroupable(item, keys))
       <==> (forall item | item in V.Rows(Filter(rows, LeftOut(filters))) :: IsGroupable(item, keys))
  {
    hide PassesAll, HasKeys, INHERITED;
    var all, left := V.Rows(Map(rows, t)), V.Rows(Filter(rows, LeftOut(filters)));
    LeftOutRows(rows, filters);
    hide V.Rows, Filter;
    forall item | item in left ensures item in all {
      RowsMember(Filter(rows, LeftOut(filters)), map[]);
      var c := item.value;
      RowsMember(Map(rows, t), c);
      var j :| 0 <= j < |rows| && rows[j] == c;
      assert Map(rows, t)[j] == c;
    }
    forall item | item in all && item !in left ensures IsGroupable(item, keys) {
      RowsMember(Map(rows, t), map[]);
      RowsMember(Map(rows, t), item.value);
      var i :| 0 <= i < |rows| && Map(rows, t)[i] == item.value;
      assert PassesAll(filters)(rows[i]);
    }
  }

  /** GROUP finds only the rows that did not pass. */
  lemma GroupAfter(rows: seq<Clip>, t: Clip -> Clip, filters: seq<seq<Verifier>>, keys: seq<string>)
    requires Unkeys(t, rows, filters, keys)
    ensures RunStage(GROUP(keys, true), Flat(V.Rows(Map(rows, t))))
         == RunStage(GROUP(keys, true), Flat(V.Rows(Filter(rows, LeftOut(filters)))))
  {
    GroupsAfter(rows, t, filters, keys);
    GroupableAfter(rows, t, filters, keys);
    hide GroupUp, GroupKey, IsGroupable, V.Rows, Filter;
  }

  lemma TouchedUnkeys(rows: seq<Clip>, filters: seq<seq<Verifier>>, removed: seq<string>, keys: seq<string>)
    requires LosesKey(keys, removed)
    ensures Unkeys(Touched(filters, removed), rows, filters, keys)
  {
    hide LosesKey, PassesAll, HasKeys;
    forall c ensures !HasKeys(Some(RemoveKeys(c, removed)), keys) { RemovedIsUnkeyed(c, keys, removed); }
  }

  /** That is what it gives alone if and only if no row that passes has all the keys. */
  lemma SameAsAloneIff(rows: seq<Clip>, filters: seq<seq<Verifier>>, keys: seq<string>)
    requires RunStage(GROUP(keys, true), Flat(V.Rows(rows))).Ok?
    ensures RunStage(GROUP(keys, true), Flat(V.Rows(Filter(rows, LeftOut(filters)))))
         == RunStage(GROUP(keys, true), Flat(V.Rows(rows)))
       <==> forall c | c in rows && PassesAll(filters)(c) :: !HasKeys(Some(c), keys)
  {
    var same := (c: Clip) => c;
    assert Map(rows, same) == rows;
    hide PassesAll, HasKeys, RunStage, V.Rows;
    if forall c | c in rows && PassesAll(filters)(c) :: !HasKeys(Some(c), keys) {
      GroupAfter(rows, same, filters, keys);
    } else {
      var c :| c in rows && PassesAll(filters)(c) && HasKeys(Some(c), keys);
      LeftOutRows(rows, filters);
      RowsMember(rows, c);
      GroupedMember(V.Rows(rows), keys, Some(c));
      GroupedMember(V.Rows(Filter(rows, LeftOut(filters))), keys, Some(c));
    }
  }

  /** An item with all the keys is in some group exactly if it is in the list. */
  lemma GroupedMember(items: seq<Item>, keys: seq<string>, item: Item)
    requires HasKeys(item, keys) && RunStage(GROUP(keys, true), Flat(items)).Ok?
    ensures RunStage(GROUP(keys, true), Flat(items)).value.Grouped?
    ensures item in AllItems(RunStage(GROUP(keys, true), Flat(items)).value) <==> item in items
  {
    GroupUpBag(items, GroupKey(keys));
    FilterMember(items, HasSomeKey(GroupKey(keys)), item);
    hide HasKeys, GroupUp, IsGroupable, Concatenated, Filter, KeyTexts;
    var groups := Items(GroupUp(items, GroupKey(keys)));
    assert groups + [] == groups;
    assert item in multiset(Concatenated(groups)) <==> item in multiset(Filter(items, HasSomeKey(GroupKey(keys))));
  }

  // ----- both pipelines together --------------------------------------------

  /** Nothing runs after the last pipeline, so its entry is still what its run gave. */
  lemma LastEntry(aggregation: map<string, HeapData>, runs: seq<seq<Moment>>, inputs: seq<seq<Clip>>,
                  pipelines: seq<Pipeline>, data: seq<ClipObject>)
    requires Aggregated(Ok(aggregation), runs, inputs, pipelines, data) && pipelines != []
    ensures var k := |pipelines| - 1;
            && k < |inputs| && pipelines[k].name in aggregation
            && Compose(pipelines[k].stages, Flat(V.Rows(inputs[k]))) == Ok(Read(aggregation[pipelines[k].name]))
  {
    var k := |pipelines| - 1;
    EntryRun(aggregation, runs, inputs, pipelines, data, k);
    hide Compose, Read, Holds, SameOutside, Aggregated, IsRun, Clips;
    RunHolds(runs[k], pipelines[k].stages, data, inputs[k], inputs[k + 1]);
    ReadsAsThen(Last(runs[k]), data);
  }

  lemma FirstOfTwo(r: Result<map<string, HeapData>, Error>, runs: seq<seq<Moment>>, inputs: seq<seq<Clip>>,
                   pipelines: seq<Pipeline>, data: seq<ClipObject>)
    requires |pipelines| == 2 && Aggregated(r, runs, inputs, pipelines, data)
    requires Compose(pipelines[0].stages, Flat(V.Rows(inputs[0]))).Ok?
    ensures |inputs| == 3 && |runs| == 2 && |runs[0]| == |pipelines[0].stages| + 1
    ensures IsRun(runs[0], pipelines[0].stages, data, inputs[0], inputs[1])
    ensures r.Err? ==> Compose(pipelines[1].stages, Flat(V.Rows(inputs[1]))) == Err(r.error)
  {
    hide Compose, IsRun, SameOutside, Clips, Read;
  }

  lemma FirstFails(r: Result<map<string, HeapData>, Error>, runs: seq<seq<Moment>>, inputs: seq<seq<Clip>>,
                   pipelines: seq<Pipeline>, data: seq<ClipObject>)
    requires pipelines != [] && Aggregated(r, runs, inputs, pipelines, data)
    requires Compose(pipelines[0].stages, Flat(V.Rows(inputs[0]))).Err?
    ensures r.Err?
  {
    hide Compose, Aggregated, Clips, Holds, SameOutside;
    if r.Ok? {
      EntryRun(r.value, runs, inputs, pipelines, data, 0);
      RunHolds(runs[0], pipelines[0].stages, data, inputs[0], inputs[1]);
    }
  }

  lemma GroupAlone(keys: seq<string>, d: Data)
    ensures Compose([GROUP(keys, true)], d) == RunStage(GROUP(keys, true), d)
  {
    assert [GROUP(keys, true)][1..] == [];
    hide RunStage;
  }

  /** The second pipeline gives GROUP of the rows the first one filtered out. */
  ghost predicate GroupsTheRest(r: Result<map<string, HeapData>, Error>, name: string, rows: seq<Clip>,
                                filters: seq<seq<Verifier>>, keys: seq<string>)
    reads if r.Ok? && name in r.value then Refs(r.value[name]) else {}
  {
    var rest := RunStage(GROUP(keys, true), Flat(V.Rows(Filter(rows, LeftOut(filters)))));
    match r
    case Ok(entries) => name in entries && rest == Ok(Read(entries[name]))
    case Err(e) => rest == Err(e)
  }

  lemma TwoOutcomes(r: Result<map<string, HeapData>, Error>, runs: seq<seq<Moment>>, inputs: seq<seq<Clip>>,
                    pipelines: seq<Pipeline>, data: seq<ClipObject>, filters: seq<seq<Verifier>>, removed: seq<string>,
                    keys: seq<string>)
    requires |pipelines| == 2 && Aggregated(r, runs, inputs, pipelines, data) && LosesKey(keys, removed)
    requires pipelines[0].stages == FilteredWithout(filters, removed) && pipelines[1].stages == [GROUP(keys, true)]
    ensures FilterItems(V.Rows(inputs[0]), filters).Err? ==> r.Err?
    ensures FilterItems(V.Rows(inputs[0]), filters).Ok? ==>
              GroupsTheRest(r, pipelines[1].name, inputs[0], filters, keys)
  {
    assert |FilteredWithout(filters, removed)| == 2;
    hide Compose, Aggregated, IsRun, FilterItems, FilteredWithout, RunStage, LosesKey, Unkeys, Touched, Filter;
    hide V.Rows, Read;
    FirstComputes(inputs[0], filters, removed);
    if FilterItems(V.Rows(inputs[0]), filters).Ok? {
      FirstOfTwo(r, runs, inputs, pipelines, data);
      FirstTouches(runs[0], filters, removed, data, inputs[0], inputs[1]);
      TouchedUnkeys(inputs[0], filters, removed, keys);
      GroupAfter(inputs[0], Touched(filters, removed), filters, keys);
      GroupAlone(keys, Flat(V.Rows(inputs[1])));
      if r.Ok? { LastEntry(r.value, runs, inputs, pipelines, data); }
    } else {
      FirstFails(r, runs, inputs, pipelines, data);
    }
  }

  /** The first pipeline keeps the rows that pass and leaves a key out of them; the second one groups by that key. It
      gets the groups of the rows that did not pass: by SameAsAloneIff not what it gives alone, unless no row that
      passes has all its keys. */
  method AggregateFilterThenGroup(data: seq<ClipObject>, first: string, second: string, filters: seq<seq<Verifier>>,
                                  removed: seq<string>, keys: seq<string>)
    returns (r: Result<map<string, HeapData>, Error>)
    requires Distinct(data) && first != second && LosesKey(keys, removed)
    modifies data
    ensures FilterItems(V.Rows(old(Clips(data))), filters).Err? ==> r.Err?
    ensures FilterItems(V.Rows(old(Clips(data))), filters).Ok? ==>
              GroupsTheRest(r, second, old(Clips(data)), filters, keys)
  {
    ghost var runs, inputs;
    var pipelines := [Pipeline(first, FilteredWithout(filters, removed)), Pipeline(second, [GROUP(keys, true)])];
    assert NamesDistinct(pipelines);
    hide *;
    r, runs, inputs := Aggregate(data, pipelines);
    TwoOutcomes(r, runs, inputs, pipelines, data, filters, removed, keys);
  }

  /** A row as the read of data hands it over. */
  const RECEIVED: Clip :=
    map["studyId" := Str("s"), "fieldId" := Str("f"), "dataVersion" := Str("v"), "value" := Num(7),
        "properties" := Obj(map[])]

  lemma ReceivedRow()
    ensures "fieldId" in RECEIVED && RECEIVED["fieldId"] == Str("f")
    ensures V.Versioned()(RECEIVED)
  {
  }

  lemma ReceivedPasses()
    ensures PassesAll(V.VersionedFilter())(RECEIVED)
  {
    ReceivedRow();
    hide RECEIVED, Passes, V.VersionedFilter, V.Versioned;
    V.VersionedPasses(RECEIVED);
  }

  lemma FieldIsLost()
    ensures LosesKey(["fieldId"], ["fieldId"])
  {
    assert Split("fieldId") == ["fieldId"];
    hide Split;
    assert "fieldId" in ["fieldId"];
  }

  lemma ReceivedAlone()
    ensures RunStage(GROUP(["fieldId"], true), Flat([Some(RECEIVED)])) == Ok(Grouped([[Some(RECEIVED)]]))
  {
    var item, keys := Some(RECEIVED), ["fieldId"];
    ReceivedRow();
    hide RECEIVED;
    V.OneStep(RECEIVED, "fieldId");
    assert NestedKey(item, "fieldId") == Str("f");
    hide NestedKey;
    assert KeyTexts(item, keys) == ["f"] && GroupKey(keys)(item) == Some("f");
    V.GroupableIff(item, keys);
    assert "f" !in INHERITED;
    hide GroupKey, INHERITED;
    OneGroup(item, keys, "f");
  }

  lemma OneGroup(item: Item, keys: seq<string>, k: string)
    requires GroupKey(keys)(item) == Some(k) && k !in INHERITED
    ensures RunStage(GROUP(keys, true), Flat([item])) == Ok(Grouped([[item]]))
  {
    assert [item][..0] == [];
    hide GroupKey, INHERITED;
    assert GroupUp([item], GroupKey(keys)) == [Group(k, [item])];
    assert Items([Group(k, [item])]) == [[item]] && [[item]] + [] == [[item]];
  }

  lemma ReceivedLeft()
    ensures Filter([RECEIVED], LeftOut(V.VersionedFilter())) == []
    ensures FilterItems(V.Rows([RECEIVED]), V.VersionedFilter()).Ok?
    ensures RunStage(GROUP(["fieldId"], true), Flat(V.Rows([]))) == Ok(Grouped([]))
  {
    ReceivedPasses();
    V.VersionedStage([RECEIVED]);
    V.NothingGrouped(["fieldId"], true);
    hide RECEIVED, PassesAll, V.VersionedFilter, FilterItems, RunStage;
    assert [RECEIVED][1..] == [];
    assert V.Rows([]) == [];
  }

  lemma OneRow(o: ClipObject)
    ensures Clips([o]) == [o.fields] && Distinct([o])
  {
  }

  /** One published row: the first pipeline hands over published rows without their field, and the second one, which
      groups them by field, gets no group where alone it has one. */
  method ReceivedRowIsLost() returns (r: Result<map<string, HeapData>, Error>)
    ensures r.Ok? && "second" in r.value && Read(r.value["second"]) == Grouped([])
    ensures RunStage(GROUP(["fieldId"], true), Flat([Some(RECEIVED)])) == Ok(Grouped([[Some(RECEIVED)]]))
  {
    ReceivedAlone();
    ReceivedLeft();
    FieldIsLost();
    assert "first" != "second";
    hide RECEIVED, V.VersionedFilter, RunStage, LosesKey, Read, FilterItems, Filter, LeftOut, V.Rows, Clips;
    var o := new ClipObject(RECEIVED);
    OneRow(o);
    assert Clips([o]) == [RECEIVED];
    r := AggregateFilterThenGroup([o], "first", "second", V.VersionedFilter(), ["fieldId"], ["fieldId"]);
    assert GroupsTheRest(r, "second", [RECEIVED], V.VersionedFilter(), ["fieldId"]);
  }
}
