/** Which values GROUP takes for the same: it compares their texts, so a number and the string that spells it
    are one key. */
module GroupTexts {
  import opened Sequences
  import opened Json
  import opened GroupKeys
  import opened Transformation
  import V = VersioningRead

  // ----- texts of numbers ---------------------------------------------------

  function ReadDigits(s: string): nat
    requires forall i | 0 <= i < |s| :: '0' <= s[i] <= '9'
  {
    if s == "" then 0 else ReadDigits(s[..|s| - 1]) * 10 + (s[|s| - 1] as int - '0' as int)
  }

  lemma {:induction false} DigitsReadBack(n: nat)
    ensures AllDigits(Digits(n)) && ReadDigits(Digits(n)) == n
    decreases n
  {
    var last := ('0' as int + n % 10) as char;
    if n < 10 {
      assert Digits(n) == [last] && [last][..0] == [];
    } else {
      DigitsReadBack(n / 10);
      assert Digits(n) == Digits(n / 10) + [last];
      assert Digits(n)[..|Digits(n)| - 1] == Digits(n / 10);
    }
  }

  lemma DecimalShape(n: int)
    ensures n >= 0 ==> AllDigits(Decimal(n)) && ReadDigits(Decimal(n)) == n
    ensures n < 0 ==> Decimal(n) != "" && Decimal(n)[0] == '-'
    ensures n < 0 ==> AllDigits(Decimal(n)[1..]) && ReadDigits(Decimal(n)[1..]) == -n
  {
    DigitsReadBack(if n < 0 then -n else n);
    hide Digits, ReadDigits;
    assert n < 0 ==> Decimal(n)[1..] == Digits(-n);
  }

  lemma DecimalReadsBack(m: int, n: int)
    ensures Decimal(m) == Decimal(n) ==> m == n
    ensures Decimal(m) != "" && (Decimal(m)[0] == '-' || '0' <= Decimal(m)[0] <= '9')
  {
    DecimalShape(m);
    DecimalShape(n);
    hide Decimal, ReadDigits;
  }

  // ----- values with the same text ------------------------------------------

  predicate Scalar(v: Value) { v.Null? || v.Bool? || v.Num? || v.Str? }

  /** The same value, or a string and what it spells. */
  predicate Alike(v: Value, w: Value) {
    || v == w
    || (v.Str? && !w.Str? && v.s == Text(w))
    || (w.Str? && !v.Str? && w.s == Text(v))
  }

  lemma SameTextIff(v: Value, w: Value)
    requires Scalar(v) && Scalar(w)
    ensures Text(v) == Text(w) <==> Alike(v, w)
  {
    if v.Num? { DecimalReadsBack(v.n, if w.Num? then w.n else 0); }
    if w.Num? { DecimalReadsBack(w.n, if v.Num? then v.n else 0); }
    hide Decimal;
    assert "null"[0] == 'n' && "true"[0] == 't' && "false"[0] == 'f';
  }

  /** The key values of the clip are scalars, and their texts have no bar. */
  ghost predicate TextShaped(c: Item, keys: seq<string>) {
    forall k | k in keys :: Scalar(NestedKey(c, k)) && BarFree(Text(NestedKey(c, k)))
  }

  /** GROUP puts two such clips together exactly when their key values are alike one by one. */
  lemma SameGroupIffAlike(c: Item, d: Item, keys: seq<string>)
    requires TextShaped(c, keys) && TextShaped(d, keys)
    ensures GroupKey(keys)(c).Some? && GroupKey(keys)(d).Some?
    ensures GroupKey(keys)(c) == GroupKey(keys)(d) <==> forall k | k in keys :: Alike(NestedKey(c, k), NestedKey(d, k))
  {
    hide NestedKey, Text, BarFree, Joined;
    var t, u := KeyTexts(c, keys), KeyTexts(d, keys);
    forall i | 0 <= i < |keys|
      ensures BarFree(t[i]) && BarFree(u[i]) && (t[i] == u[i] <==> Alike(NestedKey(c, keys[i]), NestedKey(d, keys[i])))
    {
      assert keys[i] in keys;
      SameTextIff(NestedKey(c, keys[i]), NestedKey(d, keys[i]));
    }
    if Joined(t) == Joined(u) { BarFreeJoinsApart(t, u); }
    if forall k | k in keys :: Alike(NestedKey(c, k), NestedKey(d, k)) {
      forall i | 0 <= i < |keys| ensures t[i] == u[i] { assert keys[i] in keys; }
      assert t == u;
    }
    hide Alike, KeyTexts;
    forall k | k in keys && Joined(t) == Joined(u) ensures Alike(NestedKey(c, k), NestedKey(d, k)) {
      var i :| 0 <= i < |keys| && keys[i] == k;
      assert t[i] == u[i];
    }
  }

  lemma OneGroup(key: string, v: Value, w: Value)
    requires '.' !in key && Scalar(v) && Scalar(w) && BarFree(Text(v)) && Alike(v, w)
    ensures GroupKey([key])(Some(map[key := v])) == GroupKey([key])(Some(map[key := w]))
  {
    V.OneStep(map[key := v], key);
    V.OneStep(map[key := w], key);
    SameTextIff(v, w);
    hide NestedKey, Text, BarFree;
    SameGroupIffAlike(Some(map[key := v]), Some(map[key := w]), [key]);
  }

  /** Different values in one group: the number 1 and the string 1, no value and the string null. */
  lemma DifferentValuesOneGroup()
    ensures Num(1) != Str("1")
    ensures GroupKey(["visit"])(Some(map["visit" := Num(1)])) == GroupKey(["visit"])(Some(map["visit" := Str("1")]))
    ensures Null != Str("null")
    ensures GroupKey(["visit"])(Some(map["visit" := Null])) == GroupKey(["visit"])(Some(map["visit" := Str("null")]))
  {
    assert Text(Num(1)) == "1";
    OneGroup("visit", Num(1), Str("1"));
    OneGroup("visit", Null, Str("null"));
  }
}
