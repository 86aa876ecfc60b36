/** What the key rules and conversions of AFFINE and COUNT make of a clip, and what formulas give. */
module KeyRules {
  import opened Sequences
  import opened Documents
  import opened Json
  import opened Transformation
  import opened VersioningRead

  // ----- formulas -----------------------------------------------------------

  /** A constant is itself and SELF the value at hand; a table translates the strings it has an entry for that is not
      null, leaves other strings, and throws at what is no string; other operations throw. */
  lemma FormulaIs(ast: Ast, data: Value)
    ensures ast.Const? ==> Eval(ast, data) == Ok(ast.v)
    ensures ast.Self? ==> Eval(ast, data) == Ok(data)
    ensures ast.Operation? ==> Eval(ast, data).Err?
    ensures ast.Table? && !data.Str? ==> Eval(ast, data).Err?
    ensures ast.Table? && data.Str? ==>
              Eval(ast, data)
              == if data.s in ast.entries && ast.entries[data.s] !in {Null, Undefined} then Ok(ast.entries[data.s])
                 else Ok(data)
    ensures ast.Variable? && ast.path == "" ==> Eval(ast, data).Err?
  {
    hide Walk, Split;
  }

  predicate HasNext(v: Value, key: string) { v.Obj? && key in v.fields && v.fields[key] != Undefined }

  /** The values met on the way along the keys, as long as each is an object with the next key. */
  ghost predicate Met(data: Value, keys: seq<string>, met: seq<Value>) {
    && 1 <= |met| <= |keys| + 1 && met[0] == data
    && (forall i | 0 <= i < |met| - 1 :: HasNext(met[i], keys[i]) && met[i + 1] == met[i].fields[keys[i]])
    && (|met| <= |keys| ==> !HasNext(met[|met| - 1], keys[|met| - 1]))
  }

  /** A path is followed to its end; where a key is missing on the way the value is undefined, and where nothing or null
      is met before the end it throws. */
  ghost predicate WalksTo(keys: seq<string>, met: seq<Value>, r: Result<Value, Error>)
    requires met != []
  {
    r == if |met| == |keys| + 1 then Ok(met[|met| - 1])
         else if met[|met| - 1] in {Null, Undefined} then Err(Failed) else Ok(Undefined)
  }

  lemma {:induction false} WalkIs(data: Value, keys: seq<string>) returns (met: seq<Value>)
    ensures Met(data, keys, met) && WalksTo(keys, met, Walk(data, keys))
    decreases keys
  {
    if keys != [] && HasNext(data, keys[0]) {
      var rest := WalkIs(data.fields[keys[0]], keys[1..]);
      met := [data] + rest;
      assert Walk(data, keys) == Walk(data.fields[keys[0]], keys[1..]);
      MetCons(data, keys, rest);
    } else {
      met := [data];
    }
  }

  lemma MetCons(data: Value, keys: seq<string>, rest: seq<Value>)
    requires keys != [] && HasNext(data, keys[0]) && Met(data.fields[keys[0]], keys[1..], rest)
    ensures Met(data, keys, [data] + rest)
  {
    var met := [data] + rest;
    assert forall i | 1 <= i < |met| :: met[i] == rest[i - 1] && (i < |keys| ==> keys[i] == keys[1..][i - 1]);
    hide HasNext;
    forall i | 0 <= i < |met| - 1 ensures HasNext(met[i], keys[i]) && met[i + 1] == met[i].fields[keys[i]] {
      if i > 0 { assert HasNext(rest[i - 1], keys[1..][i - 1]); }
    }
  }

  function Dotted(parts: seq<string>): string
    requires parts != []
  {
    if |parts| == 1 then parts[0] else parts[0] + "." + Dotted(parts[1..])
  }

  /** The parts of a path hold no dot and spell it with dots between them. */
  lemma {:induction false} SplitIs(path: string)
    ensures Split(path) != [] && (forall part | part in Split(path) :: '.' !in part) && Dotted(Split(path)) == path
  {
    if '.' in path {
      var i := IndexOf(path, '.');
      SplitIs(path[i + 1..]);
      assert '.' !in path[..i];
      assert path == path[..i] + "." + path[i + 1..];
      assert Split(path)[1..] == Split(path[i + 1..]);
    }
  }

  lemma VariableIs(path: string, data: Value) returns (keys: seq<string>, met: seq<Value>)
    requires path != ""
    ensures keys != [] && (forall key | key in keys :: '.' !in key) && Dotted(keys) == path
    ensures Met(data, keys, met) && WalksTo(keys, met, Eval(Variable(path), data))
  {
    SplitIs(path);
    keys := Split(path);
    met := WalkIs(data, keys);
    hide Split, Walk, Dotted, Met, WalksTo;
  }

  // ----- key rules ----------------------------------------------------------

  /** The rule calculates a key and a value, and that key is set to that value. */
  ghost predicate SetBy(before: Clip, after: Clip, rule: KeyRule, source: Value) {
    exists k, v :: Eval(rule.key, source) == Ok(k) && Eval(rule.value, source) == Ok(v) && after == before[Text(k) := v]
  }

  /** The rules of AFFINE one after the other, each calculated on the clip as it is by then. */
  ghost predicate OwnSteps(steps: seq<Clip>, rules: seq<KeyRule>) {
    |steps| == |rules| + 1 && forall i | 0 <= i < |rules| :: SetBy(steps[i], steps[i + 1], rules[i], Obj(steps[i]))
  }

  /** Those of COUNT, each calculated on the one source. */
  ghost predicate SourceSteps(steps: seq<Clip>, rules: seq<KeyRule>, source: Value) {
    |steps| == |rules| + 1 && forall i | 0 <= i < |rules| :: SetBy(steps[i], steps[i + 1], rules[i], source)
  }

  lemma OwnRest(steps: seq<Clip>, rules: seq<KeyRule>)
    requires OwnSteps(steps, rules) && rules != []
    ensures OwnSteps(steps[1..], rules[1..]) && SetBy(steps[0], steps[1], rules[0], Obj(steps[0]))
  {
    hide SetBy;
    forall i | 0 <= i < |rules| - 1
      ensures SetBy(steps[1..][i], steps[1..][i + 1], rules[1..][i], Obj(steps[1..][i]))
    {
      assert SetBy(steps[i + 1], steps[i + 1 + 1], rules[i + 1], Obj(steps[i + 1]));
    }
  }

  lemma {:induction false} OwnStepsCompute(rules: seq<KeyRule>, steps: seq<Clip>)
    requires OwnSteps(steps, rules)
    ensures AddOwnKeys(steps[0], rules) == Ok(steps[|rules|])
    decreases rules
  {
    hide Eval;
    if rules != [] {
      OwnRest(steps, rules);
      OwnStepsCompute(rules[1..], steps[1..]);
    }
  }

  lemma {:induction false} OwnStepsExist(c: Clip, rules: seq<KeyRule>) returns (steps: seq<Clip>)
    requires AddOwnKeys(c, rules).Ok?
    ensures OwnSteps(steps, rules) && steps[0] == c && AddOwnKeys(c, rules) == Ok(steps[|rules|])
    decreases rules
  {
    hide Eval;
    if rules == [] {
      steps := [c];
    } else {
      var k, v := Eval(rules[0].key, Obj(c)).value, Eval(rules[0].value, Obj(c)).value;
      var rest := OwnStepsExist(c[Text(k) := v], rules[1..]);
      steps := [c] + rest;
      assert SetBy(c, rest[0], rules[0], Obj(c));
      hide SetBy;
      forall i | 0 <= i < |rules| ensures SetBy(steps[i], steps[i + 1], rules[i], Obj(steps[i])) {
        if i > 0 { assert SetBy(rest[i - 1], rest[i - 1 + 1], rules[1..][i - 1], Obj(rest[i - 1])); }
      }
    }
  }

  // ----- AFFINE -------------------------------------------------------------

  /** The values of the keys that have a rule are calculated from the values, and the keys to remove are gone. */
  ghost predicate Converted(before: Clip, after: Clip, p: AffineParams) {
    && (forall k | k in before && k in p.rules :: Eval(p.rules[k], before[k]).Ok?)
    && (forall k :: k in after <==> k in before && k !in p.removedKeys)
    && forall k | k in after ::
         if k in p.rules then Eval(p.rules[k], before[k]) == Ok(after[k]) else after[k] == before[k]
  }

  lemma ConvertedIff(before: Clip, after: Clip, p: AffineParams)
    ensures Converted(before, after, p) <==>
      match ApplyRules(before, p.rules) case Ok(ruled) => after == RemoveKeys(ruled, p.removedKeys) case Err(_) => false
  {
    hide Eval;
  }

  /** AFFINE makes r of a clip exactly if r is the clip with the keys added in turn, the conversions applied and keys
      removed. */
  lemma AffineIs(c: Clip, p: AffineParams, r: Clip)
    ensures AffineOne(p)(Some(c)) == Ok(Some(r))
       <==> exists steps :: OwnSteps(steps, p.addedKeyRules) && steps[0] == c
              && Converted(steps[|p.addedKeyRules|], r, p)
  {
    hide AddOwnKeys, ApplyRules, RemoveKeys, Converted, SetBy;
    if AddOwnKeys(c, p.addedKeyRules).Ok? {
      var steps := OwnStepsExist(c, p.addedKeyRules);
      ConvertedIff(steps[|p.addedKeyRules|], r, p);
    }
    forall steps | OwnSteps(steps, p.addedKeyRules) && steps[0] == c
      ensures AddOwnKeys(c, p.addedKeyRules) == Ok(steps[|p.addedKeyRules|])
    {
      OwnStepsCompute(p.addedKeyRules, steps);
    }
  }

  /** The key of the rule is the given text. */
  predicate SetsKey(rule: KeyRule, k: string) { rule.key == Const(Str(k)) }

  /** The rule sets a given key, another one than k. */
  predicate SetsOther(rule: KeyRule, k: string) { rule.key.Const? && rule.key.v.Str? && rule.key.v.s != k }

  lemma {:induction false} OthersKeep(steps: seq<Clip>, rules: seq<KeyRule>, k: string, i: nat, j: nat)
    requires OwnSteps(steps, rules) && i <= j <= |rules| && forall n | i <= n < j :: SetsOther(rules[n], k)
    ensures k in steps[j] <==> k in steps[i]
    ensures k in steps[i] ==> steps[j][k] == steps[i][k]
  {
    if i < j {
      OthersKeep(steps, rules, k, i, j - 1);
      assert SetBy(steps[j - 1], steps[j - 1 + 1], rules[j - 1], Obj(steps[j - 1]));
    }
  }

  /** A rule with a constant key and a constant value leaves the value under the key, unless a later rule, a conversion
      or a removal is about that key. */
  lemma ConstantRule(c: Clip, p: AffineParams, r: Clip, i: nat, k: string, v: Value)
    requires AffineOne(p)(Some(c)) == Ok(Some(r)) && i < |p.addedKeyRules|
    requires SetsKey(p.addedKeyRules[i], k) && p.addedKeyRules[i].value == Const(v)
    requires forall j | i < j < |p.addedKeyRules| :: SetsOther(p.addedKeyRules[j], k)
    requires k !in p.rules && k !in p.removedKeys
    ensures k in r && r[k] == v
  {
    AffineIs(c, p, r);
    var rules := p.addedKeyRules;
    var steps :| OwnSteps(steps, rules) && steps[0] == c && Converted(steps[|rules|], r, p);
    assert SetBy(steps[i], steps[i + 1], rules[i], Obj(steps[i]));
    OthersKeep(steps, rules, k, i + 1, |rules|);
    hide OwnSteps, AffineOne;
  }

  /** The keys of the clip that no rule sets, converts or removes keep their values. */
  lemma OtherKeysStay(c: Clip, p: AffineParams, r: Clip, k: string)
    requires AffineOne(p)(Some(c)) == Ok(Some(r))
    requires forall j | 0 <= j < |p.addedKeyRules| :: SetsOther(p.addedKeyRules[j], k)
    ensures k in r <==> k in c && k !in p.removedKeys
    ensures k in r && k !in p.rules ==> r[k] == c[k]
    ensures k in r && k in p.rules ==> Eval(p.rules[k], c[k]) == Ok(r[k])
  {
    AffineIs(c, p, r);
    var rules := p.addedKeyRules;
    var steps :| OwnSteps(steps, rules) && steps[0] == c && Converted(steps[|rules|], r, p);
    OthersKeep(steps, rules, k, 0, |rules|);
    hide OwnSteps, AffineOne, SetsOther, Eval;
  }

  /** The keys afterwards are the keys of the clip and those the rules add, without the removed ones. */
  lemma KeysOfAffine(c: Clip, p: AffineParams, r: Clip)
    requires AffineOne(p)(Some(c)) == Ok(Some(r))
    requires forall j | 0 <= j < |p.addedKeyRules| :: p.addedKeyRules[j].key.Const? && p.addedKeyRules[j].key.v.Str?
    ensures forall k :: k in r <==>
      (k in c || exists j :: 0 <= j < |p.addedKeyRules| && SetsKey(p.addedKeyRules[j], k)) && k !in p.removedKeys
  {
    AffineIs(c, p, r);
    var rules := p.addedKeyRules;
    var steps :| OwnSteps(steps, rules) && steps[0] == c && Converted(steps[|rules|], r, p);
    forall k
      ensures k in steps[|rules|] <==> k in c || exists j :: 0 <= j < |rules| && SetsKey(rules[j], k)
    {
      KeysSoFar(steps, rules, k, |rules|);
    }
    hide OwnSteps, AffineOne, SetsKey;
  }

  lemma {:induction false} KeysSoFar(steps: seq<Clip>, rules: seq<KeyRule>, k: string, i: nat)
    requires OwnSteps(steps, rules) && i <= |rules|
    requires forall j | 0 <= j < |rules| :: rules[j].key.Const? && rules[j].key.v.Str?
    ensures k in steps[i] <==> k in steps[0] || exists j :: 0 <= j < i && SetsKey(rules[j], k)
  {
    if i > 0 {
      KeysSoFar(steps, rules, k, i - 1);
      assert SetBy(steps[i - 1], steps[i - 1 + 1], rules[i - 1], Obj(steps[i - 1]));
      assert k in steps[i] <==> k in steps[i - 1] || SetsKey(rules[i - 1], k);
    }
  }

  // ----- COUNT --------------------------------------------------------------

  lemma SourceRest(steps: seq<Clip>, rules: seq<KeyRule>, source: Value)
    requires SourceSteps(steps, rules, source) && rules != []
    ensures SourceSteps(steps[1..], rules[1..], source) && SetBy(steps[0], steps[1], rules[0], source)
  {
    hide SetBy;
    forall i | 0 <= i < |rules| - 1 ensures SetBy(steps[1..][i], steps[1..][i + 1], rules[1..][i], source) {
      assert SetBy(steps[i + 1], steps[i + 1 + 1], rules[i + 1], source);
    }
  }

  lemma {:induction false} SourceStepsCompute(rules: seq<KeyRule>, steps: seq<Clip>, source: Value)
    requires SourceSteps(steps, rules, source)
    ensures AddKeys(steps[0], rules, source) == Ok(steps[|rules|])
    decreases rules
  {
    hide Eval;
    if rules != [] {
      SourceRest(steps, rules, source);
      SourceStepsCompute(rules[1..], steps[1..], source);
    }
  }

  lemma {:induction false} SourceStepsExist(c: Clip, rules: seq<KeyRule>, source: Value) returns (steps: seq<Clip>)
    requires AddKeys(c, rules, source).Ok?
    ensures SourceSteps(steps, rules, source) && steps[0] == c && AddKeys(c, rules, source) == Ok(steps[|rules|])
    decreases rules
  {
    hide Eval;
    if rules == [] {
      steps := [c];
    } else {
      var k, v := Eval(rules[0].key, source).value, Eval(rules[0].value, source).value;
      var rest := SourceStepsExist(c[Text(k) := v], rules[1..], source);
      steps := [c] + rest;
      assert SetBy(c, rest[0], rules[0], source);
      hide SetBy;
      forall i | 0 <= i < |rules| ensures SetBy(steps[i], steps[i + 1], rules[i], source) {
        if i > 0 { assert SetBy(rest[i - 1], rest[i - 1 + 1], rules[1..][i - 1], source); }
      }
    }
  }

  /** COUNT makes r of a group exactly if r is its size under count with the keys added that the rules calculate on the
      group's first item. */
  lemma CountIs(group: seq<Item>, rules: seq<KeyRule>, r: Clip)
    ensures var source := if group == [] || group[0] == None then Undefined else Obj(group[0].value);
      CountIn(rules)(group) == Ok(Some(r))
      <==> exists steps :: SourceSteps(steps, rules, source)
             && steps[0] == map["count" := Num(|group|)] && steps[|rules|] == r
  {
    var source := if group == [] || group[0] == None then Undefined else Obj(group[0].value);
    var c: Clip := map["count" := Num(|group|)];
    hide AddKeys, SetBy;
    if AddKeys(c, rules, source).Ok? { var steps := SourceStepsExist(c, rules, source); }
    forall steps | SourceSteps(steps, rules, source) && steps[0] == c
      ensures AddKeys(c, rules, source) == Ok(steps[|rules|])
    {
      SourceStepsCompute(rules, steps, source);
    }
  }
}
