/** What each stage of `transformationCore.ts` computes, on clips as values. Exceptions are errors;
    which exception it was is not kept. */
module Transformation {
  import opened Sequences
  import opened Documents
  import opened Json
  import opened Grouping
  import opened GroupKeys

  type Clip = map<string, Value>

  /** A place in a list: a clip, or undefined, which LEAVEONE puts where a group has no best item. */
  type Item = Option<Clip>

  function ValueOf(item: Item): Value { match item case Some(c) => Obj(c) case None => Undefined }

  /** A list of items or a list of lists. The empty list is both: see AsFlat and AsGroups. */
  datatype Data = Flat(items: seq<Item>) | Grouped(groups: seq<seq<Item>>)

  datatype Error = WrongShape | NotRegistered | Failed

  function AsFlat(d: Data): Result<seq<Item>, Error> {
    match d
    case Flat(items) => Ok(items)
    case Grouped(groups) => if groups == [] then Ok([]) else Err(WrongShape)
  }

  function AsGroups(d: Data): Result<seq<seq<Item>>, Error> {
    match d
    case Grouped(groups) => Ok(groups)
    case Flat(items) => if items == [] then Ok([]) else Err(WrongShape)
  }

  function Defined(): Clip -> Item { (c: Clip) => Some(c) }

  /** The clip of an item whose keys are read. */
  function ClipOf(): Item -> Result<Clip, Error> {
    (item: Item) => match item case Some(c) => Ok(c) case None => Err(Failed)
  }

  /** Runs f on every element and stops at the first error. */
  function TryMap<T, U>(s: seq<T>, f: T -> Result<U, Error>): (r: Result<seq<U>, Error>)
    ensures r.Ok? ==> |r.value| == |s| && forall i | 0 <= i < |s| :: f(s[i]) == Ok(r.value[i])
  {
    if s == [] then Ok([])
    else match f(s[0])
      case Err(e) => Err(e)
      case Ok(u) =>
        match TryMap(s[1..], f)
        case Err(e) => Err(e)
        case Ok(us) => Ok([u] + us)
  }

  // ----- JavaScript conversions ---------------------------------------------

  predicate Truthy(v: Value) {
    match v
    case Undefined => false
    case Null => false
    case Bool(b) => b
    case Num(n) => n != 0
    case Str(s) => s != ""
    case Arr(_) => true
    case Obj(_) => true
  }

  function Get(c: Clip, k: string): Value { if k in c then c[k] else Undefined }

  function Split(path: string): seq<string> {
    if '.' !in path then [path]
    else
      var i := IndexOf(path, '.');
      [path[..i]] + Split(path[i + 1..])
  }

  // ----- formulas -----------------------------------------------------------

  datatype Ast = Const(v: Value) | Self | Variable(path: string) | Table(entries: map<string, Value>) | Operation

  /** IASTHelper on the node kinds VALUE, SELF, VARIABLE and MAP. */
  function Eval(ast: Ast, data: Value): Result<Value, Error> {
    match ast
    case Const(v) => Ok(v)
    case Self => Ok(data)
    case Table(entries) =>
      if !data.Str? then Err(Failed)
      else if data.s in entries && !entries[data.s].Null? && !entries[data.s].Undefined? then Ok(entries[data.s])
      else Ok(data)
    case Variable(path) => if path == "" then Err(Failed) else Walk(data, Split(path))
    case Operation => Err(Failed)
  }

  function Walk(current: Value, keys: seq<string>): Result<Value, Error> {
    if keys == [] then Ok(current)
    else if current.Null? || current.Undefined? then Err(Failed)
    else if current.Obj? && keys[0] in current.fields && current.fields[keys[0]] != Undefined then
      Walk(current.fields[keys[0]], keys[1..])
    else Ok(Undefined)
  }

  // ----- GROUP --------------------------------------------------------------

  function FindValue(v: Value, keys: seq<string>): Value {
    if keys == [] || v.Undefined? || v.Null? then v
    else if v.Obj? && keys[0] in v.fields then FindValue(v.fields[keys[0]], keys[1..])
    else Undefined
  }

  function NestedKey(item: Item, path: string): Value { FindValue(ValueOf(item), Split(path)) }

  predicate HasKeys(item: Item, keys: seq<string>) {
    forall k | k in keys :: NestedKey(item, k) != Undefined
  }

  function KeyTexts(item: Item, keys: seq<string>): seq<string> {
    seq(|keys|, i requires 0 <= i < |keys| => Text(NestedKey(item, keys[i])))
  }

  /** The group of an item, or None where a key is missing. */
  function GroupKey(keys: seq<string>): Item -> Option<string> {
    (item: Item) => if HasKeys(item, keys) then Some(Joined(KeyTexts(item, keys))) else None
  }

  function Unkeyed(keys: seq<string>): Item -> bool { (item: Item) => !HasKeys(item, keys) }

  function Alone(): Item -> seq<Item> { (item: Item) => [item] }

  function GroupItems(items: seq<Item>, keys: seq<string>, skipUnmatch: bool): seq<seq<Item>> {
    Items(GroupUp(items, GroupKey(keys)))
    + if skipUnmatch then [] else Map(Filter(items, Unkeyed(keys)), Alone())
  }

  /** What every object inherits: looked up under such a text, the table of groups is never without an entry, and
      the entry is not a list. */
  const INHERITED: set<string> :=
    {"constructor", "__defineGetter__", "__defineSetter__", "hasOwnProperty", "__lookupGetter__", "__lookupSetter__",
     "isPrototypeOf", "propertyIsEnumerable", "toString", "valueOf", "__proto__", "toLocaleString"}

  predicate IsGroupable(item: Item, keys: seq<string>) {
    match GroupKey(keys)(item) case Some(k) => k !in INHERITED case None => true
  }

  // ----- LEAVEONE -----------------------------------------------------------

  /** Number(v), None for NaN. Numeric strings are taken as NaN. */
  function ToNumber(v: Value): Option<int> {
    match v
    case Num(n) => Some(n)
    case Null => Some(0)
    case Bool(b) => Some(if b then 1 else 0)
    case _ => None
  }

  /** The greatest number of the list, or the least. */
  function Extreme(ns: seq<int>, greatest: bool): int
    requires ns != []
  {
    if |ns| == 1 then ns[0]
    else
      var rest := Extreme(ns[1..], greatest);
      if (if greatest then ns[0] >= rest else ns[0] <= rest) then ns[0] else rest
  }

  function Score(formula: Ast): Item -> Result<Value, Error> { (item: Item) => Eval(formula, ValueOf(item)) }

  function Numbers(scores: seq<Value>): Option<seq<int>> {
    if scores == [] then Some([])
    else match ToNumber(scores[0])
      case None => None
      case Some(n) => match Numbers(scores[1..]) case None => None case Some(ns) => Some([n] + ns)
  }

  /** The index of the first extreme score. There is none in an empty group, where some score is no number, and where
      the extreme one only counts as a number. */
  function BestIndex(scores: seq<Value>, isDescend: bool): (r: Option<nat>)
    ensures r.Some? ==> r.value < |scores|
  {
    match Numbers(scores)
    case None => None
    case Some(ns) =>
      if ns == [] then None
      else
        var best := Num(Extreme(ns, isDescend));
        if best in scores then Some(IndexOf(scores, best)) else None
  }

  /** The item left of a group; an undefined one where there is no best. */
  function LeaveOneOf(group: seq<Item>, formula: Ast, isDescend: bool): Result<Item, Error> {
    match TryMap(group, Score(formula))
    case Err(e) => Err(e)
    case Ok(scores) =>
      match BestIndex(scores, isDescend)
      case Some(i) => Ok(group[i])
      case None => Ok(None)
  }

  function LeaveOneIn(formula: Ast, isDescend: bool): seq<Item> -> Result<Item, Error> {
    (group: seq<Item>) => LeaveOneOf(group, formula, isDescend)
  }

  // ----- FILTER -------------------------------------------------------------

  /** Conditions other than the null tests are an arbitrary test of the calculated value. */
  datatype Condition = IsNull | IsNotNull | Test(holds: Value -> bool)

  datatype Verifier = Verifier(formula: Ast, condition: Condition)

  function Verify(item: Item, v: Verifier): Result<bool, Error> {
    match Eval(v.formula, ValueOf(item))
    case Err(e) => Err(e)
    case Ok(value) =>
      Ok(match v.condition
         case IsNull => value == Null
         case IsNotNull => value != Null
         case Test(holds) => holds(value))
  }

  function VerifyAll(item: Item, vs: seq<Verifier>): Result<bool, Error> {
    if vs == [] then Ok(true)
    else
      var first := Verify(item, vs[0]);
      if first == Ok(true) then VerifyAll(item, vs[1..]) else first
  }

  /** Some named filter holds in all its verifiers. */
  function Passes(item: Item, filters: seq<seq<Verifier>>): Result<bool, Error> {
    if filters == [] then Ok(false)
    else
      var first := VerifyAll(item, filters[0]);
      if first == Ok(false) then Passes(item, filters[1..]) else first
  }

  function FilterItems(items: seq<Item>, filters: seq<seq<Verifier>>): Result<seq<Item>, Error> {
    if items == [] then Ok([])
    else match Passes(items[0], filters)
      case Err(e) => Err(e)
      case Ok(keep) =>
        match FilterItems(items[1..], filters)
        case Err(e) => Err(e)
        case Ok(rest) => Ok(if keep then [items[0]] + rest else rest)
  }

  function FilterIn(filters: seq<seq<Verifier>>): seq<Item> -> Result<seq<Item>, Error> {
    (items: seq<Item>) => FilterItems(items, filters)
  }

  // ----- JOIN, CONCAT, DECONCAT, DEGROUP, FLATTEN, COUNT --------------------

  function JoinIn(): seq<Item> -> Item { (items: seq<Item>) => Some(JoinOf(items)) }

  /** An undefined item adds nothing. */
  function JoinOf(items: seq<Item>): Clip {
    if items == [] then map[]
    else
      var front := JoinOf(items[..|items| - 1]);
      match items[|items| - 1] case Some(c) => front + c case None => front
  }

  /** One clip added to the result of a CONCAT. */
  function ConcatStep(result: Clip, item: Clip, concatKeys: seq<string>): Clip {
    map k | k in result.Keys + item.Keys ::
      if k !in item then result[k]
      else if k in concatKeys then
        Arr((if Get(result, k).Arr? then Get(result, k).elems else []) + [item[k]])
      else if Truthy(Get(result, k)) then result[k]
      else item[k]
  }

  function ConcatOf(clips: seq<Clip>, concatKeys: seq<string>): Clip {
    if clips == [] then map[]
    else ConcatStep(ConcatOf(clips[..|clips| - 1], concatKeys), clips[|clips| - 1], concatKeys)
  }

  function ConcatIn(concatKeys: seq<string>): seq<Item> -> Result<Item, Error> {
    (items: seq<Item>) =>
      match TryMap(items, ClipOf()) case Err(e) => Err(e) case Ok(clips) => Ok(Some(ConcatOf(clips, concatKeys)))
  }

  /** v?.length || 0 */
  function LengthOf(v: Value): nat {
    match v case Arr(elems) => |elems| case Str(s) => |s| case _ => 0
  }

  /** v?.[i] */
  function ElementAt(v: Value, i: nat): Value {
    match v
    case Arr(elems) => if i < |elems| then elems[i] else Undefined
    case Str(s) => if i < |s| then Str([s[i]]) else Undefined
    case _ => Undefined
  }

  /** The longest value under the keys; nothing is produced when there are no keys. */
  function MaxLength(c: Clip, keys: seq<string>): nat {
    if keys == [] then 0
    else
      var first, rest := LengthOf(Get(c, keys[0])), MaxLength(c, keys[1..]);
      if first >= rest then first else rest
  }

  function KeySet(keys: seq<string>): set<string> { set k | k in keys }

  function DeconcatAt(c: Clip, keys: seq<string>, i: nat): Clip {
    map k | k in c.Keys + KeySet(keys) :: if k in keys then ElementAt(Get(c, k), i) else c[k]
  }

  function DeconcatOf(c: Clip, keys: seq<string>): seq<Clip> {
    seq(MaxLength(c, keys), i requires 0 <= i => DeconcatAt(c, keys, i))
  }

  /** Of an undefined item no key can be read; without keys there is nothing to read. */
  function DeconcatOne(keys: seq<string>): Item -> Result<seq<Item>, Error> {
    (item: Item) =>
      match item
      case Some(c) => Ok(Map(DeconcatOf(c, keys), Defined()))
      case None => if keys == [] then Ok([]) else Err(Failed)
  }

  function Nothing(): seq<Item> -> seq<Item> { (g: seq<Item>) => [] }

  function Pick(c: Clip, sharedKeys: seq<string>): seq<string> -> Clip {
    (target: seq<string>) => map k | k in sharedKeys + target :: Get(c, k)
  }

  predicate PicksNothing(sharedKeys: seq<string>, targetKeyGroups: seq<seq<string>>) {
    forall t | t in targetKeyGroups :: sharedKeys + t == []
  }

  function DegroupOf(c: Clip, sharedKeys: seq<string>, targetKeyGroups: seq<seq<string>>): seq<Item> {
    Map(Map(targetKeyGroups, Pick(c, sharedKeys)), Defined())
  }

  function DegroupOne(sharedKeys: seq<string>, targetKeyGroups: seq<seq<string>>): Item -> Result<seq<Item>, Error> {
    (item: Item) =>
      match item
      case Some(c) => Ok(DegroupOf(c, sharedKeys, targetKeyGroups))
      case None =>
        if PicksNothing(sharedKeys, targetKeyGroups) then Ok(DegroupOf(map[], sharedKeys, targetKeyGroups))
        else Err(Failed)
  }

  /** The own keys of a value that JavaScript calls an object; None for the others. */
  function Entries(v: Value): Option<Clip> {
    match v
    case Obj(fields) => Some(fields)
    case Arr(elems) => Some(ArrayEntries(elems))
    case _ => None
  }

  function ArrayEntries(elems: seq<Value>): Clip {
    if elems == [] then map[] else ArrayEntries(elems[..|elems| - 1])[Decimal(|elems| - 1) := elems[|elems| - 1]]
  }

  /** With keepFlattened the clip's own value stays where both have the key. */
  function FlattenOf(c: Clip, keepFlattened: bool, flattenedKey: string, keepFlattenedKey: bool): Clip {
    match Entries(Get(c, flattenedKey))
    case None => c
    case Some(inner) =>
      var r := if keepFlattened then inner + c else c + inner;
      if keepFlattenedKey then r else r - {flattenedKey}
  }

  function FlattenOne(keepFlattened: bool, flattenedKey: string, keepFlattenedKey: bool): Item -> Result<Item, Error> {
    (item: Item) =>
      match item
      case Some(c) => Ok(Some(FlattenOf(c, keepFlattened, flattenedKey, keepFlattenedKey)))
      case None => Err(Failed)
  }

  function FlattenIn(keepFlattened: bool, flattenedKey: string, keepFlattenedKey: bool)
    : seq<Item> -> Result<seq<Item>, Error>
  {
    (g: seq<Item>) => TryMap(g, FlattenOne(keepFlattened, flattenedKey, keepFlattenedKey))
  }

  datatype KeyRule = KeyRule(key: Ast, value: Ast)

  /** Evaluates the rules on `source` and sets the results in c. */
  function AddKeys(c: Clip, rules: seq<KeyRule>, source: Value): Result<Clip, Error>
    decreases rules
  {
    if rules == [] then Ok(c)
    else match Eval(rules[0].key, source)
      case Err(e) => Err(e)
      case Ok(k) =>
        match Eval(rules[0].value, source)
        case Err(e) => Err(e)
        case Ok(v) => AddKeys(c[Text(k) := v], rules[1..], source)
  }

  function CountOf(group: seq<Item>, rules: seq<KeyRule>): Result<Clip, Error> {
    AddKeys(map["count" := Num(|group|)], rules, if group == [] then Undefined else ValueOf(group[0]))
  }

  function CountIn(rules: seq<KeyRule>): seq<Item> -> Result<Item, Error> {
    (group: seq<Item>) => match CountOf(group, rules) case Err(e) => Err(e) case Ok(c) => Ok(Some(c))
  }

  // ----- AFFINE -------------------------------------------------------------

  /** Unlike COUNT, each rule of AFFINE sees the keys the rules before it added. */
  function AddOwnKeys(c: Clip, rules: seq<KeyRule>): Result<Clip, Error>
    decreases rules
  {
    if rules == [] then Ok(c)
    else match Eval(rules[0].key, Obj(c))
      case Err(e) => Err(e)
      case Ok(k) =>
        match Eval(rules[0].value, Obj(c))
        case Err(e) => Err(e)
        case Ok(v) => AddOwnKeys(c[Text(k) := v], rules[1..])
  }

  function ApplyRules(c: Clip, rules: map<string, Ast>): Result<Clip, Error> {
    if forall k | k in c && k in rules :: Eval(rules[k], c[k]).Ok? then
      Ok(map k | k in c :: if k in rules then Eval(rules[k], c[k]).value else c[k])
    else Err(Failed)
  }

  function RemoveKeys(c: Clip, removed: seq<string>): Clip { map k | k in c && k !in removed :: c[k] }

  datatype AffineParams = AffineParams(removedKeys: seq<string>, addedKeyRules: seq<KeyRule>, rules: map<string, Ast>)

  function AffineOf(c: Clip, p: AffineParams): Result<Clip, Error> {
    match AddOwnKeys(c, p.addedKeyRules)
    case Err(e) => Err(e)
    case Ok(added) =>
      match ApplyRules(added, p.rules)
      case Err(e) => Err(e)
      case Ok(ruled) => Ok(RemoveKeys(ruled, p.removedKeys))
  }

  /** An undefined item fails: its keys are always counted. */
  function AffineOne(p: AffineParams): Item -> Result<Item, Error> {
    (item: Item) =>
      match item
      case Some(c) => (match AffineOf(c, p) case Err(e) => Err(e) case Ok(r) => Ok(Some(r)))
      case None => Err(Failed)
  }

  function HasEntries(): Item -> bool { (item: Item) => item != Some(map[]) }

  // ----- pipelines ----------------------------------------------------------

  datatype Stage =
    | GROUP(keys: seq<string>, skipUnmatch: bool)
    | AFFINE(params: AffineParams)
    | LEAVEONE(scoreFormula: Ast, isDescend: bool)
    | JOIN
    | CONCAT(concatKeys: seq<string>)
    | DECONCAT(deconcatKeys: seq<string>)
    | DEGROUP(sharedKeys: seq<string>, targetKeyGroups: seq<seq<string>>)
    | FILTER(filters: seq<seq<Verifier>>)
    | FLATTEN(keepFlattened: bool, flattenedKey: string, keepFlattenedKey: bool)
    | COUNT(countRules: seq<KeyRule>)
    | UNKNOWN

  /** The results as a list of the other shape. */
  function AsFlatData(r: Result<seq<Item>, Error>): Result<Data, Error> {
    match r case Err(e) => Err(e) case Ok(items) => Ok(Flat(items))
  }

  function AsGroupedData(r: Result<seq<seq<Item>>, Error>): Result<Data, Error> {
    match r case Err(e) => Err(e) case Ok(groups) => Ok(Grouped(groups))
  }

  function GroupStage(items: seq<Item>, keys: seq<string>, skipUnmatch: bool): Result<seq<seq<Item>>, Error> {
    if forall item | item in items :: IsGroupable(item, keys) then Ok(GroupItems(items, keys, skipUnmatch))
    else Err(Failed)
  }

  function AffineStage(items: seq<Item>, p: AffineParams): Result<seq<Item>, Error> {
    match TryMap(items, AffineOne(p)) case Err(e) => Err(e) case Ok(r) => Ok(Filter(r, HasEntries()))
  }

  function RunStage(stage: Stage, d: Data): Result<Data, Error> {
    match stage
    case GROUP(keys, skip) =>
      (match AsFlat(d) case Err(e) => Err(e) case Ok(items) => AsGroupedData(GroupStage(items, keys, skip)))
    case AFFINE(p) =>
      (match AsFlat(d) case Err(e) => Err(e) case Ok(items) => AsFlatData(AffineStage(items, p)))
    case LEAVEONE(formula, descend) =>
      (match AsGroups(d)
       case Err(e) => Err(e)
       case Ok(groups) => AsFlatData(TryMap(groups, LeaveOneIn(formula, descend))))
    case JOIN =>
      (match AsGroups(d) case Err(e) => Err(e) case Ok(groups) => Ok(Flat(Map(groups, JoinIn()))))
    case CONCAT(keys) =>
      (match AsGroups(d) case Err(e) => Err(e) case Ok(groups) => AsFlatData(TryMap(groups, ConcatIn(keys))))
    case DECONCAT(keys) =>
      (match d
       case Flat(items) => AsGroupedData(TryMap(items, DeconcatOne(keys)))
       case Grouped(groups) => Ok(Grouped(Map(groups, Nothing()))))
    case DEGROUP(shared, targets) =>
      (match AsFlat(d)
       case Err(e) => Err(e)
       case Ok(items) => AsGroupedData(TryMap(items, DegroupOne(shared, targets))))
    case FILTER(filters) =>
      (match d
       case Flat(items) => AsFlatData(FilterItems(items, filters))
       case Grouped(groups) => AsGroupedData(TryMap(groups, FilterIn(filters))))
    case FLATTEN(keep, key, keepKey) =>
      (match d
       case Flat(items) => AsFlatData(TryMap(items, FlattenOne(keep, key, keepKey)))
       case Grouped(groups) => AsGroupedData(TryMap(groups, FlattenIn(keep, key, keepKey))))
    case COUNT(rules) =>
      (match AsGroups(d) case Err(e) => Err(e) case Ok(groups) => AsFlatData(TryMap(groups, CountIn(rules))))
    case UNKNOWN => Err(NotRegistered)
  }

  /** transformationCompose: the stages one after the other. */
  function Compose(stages: seq<Stage>, d: Data): Result<Data, Error> {
    if stages == [] then Ok(d)
    else match RunStage(stages[0], d)
      case Err(e) => Err(e)
      case Ok(next) => Compose(stages[1..], next)
  }
}
