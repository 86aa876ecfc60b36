/** `normalize` of `utilsCore.ts`, the canonical form behind the cache keys. Objects keep the order of
    their keys here, since that order is what `normalize` removes. */
module Normalize {
  import opened Sequences
  import Json

  datatype Tree =
    | Null
    | Bool(b: bool)
    | Num(n: int)
    | Str(s: string)
    | Arr(elems: seq<Tree>)
    | Obj(entries: seq<Property>)

  datatype Property = Property(key: string, value: Tree)

  // ----- the order of sort() ------------------------------------------------

  predicate LexLe(a: string, b: string) {
    a == "" || (b != "" && (a[0] < b[0] || (a[0] == b[0] && LexLe(a[1..], b[1..]))))
  }

  lemma {:induction false} LexTotal(a: string, b: string)
    ensures LexLe(a, b) || LexLe(b, a)
    ensures LexLe(a, b) && LexLe(b, a) ==> a == b
  {
    if a != "" && b != "" && a[0] == b[0] {
      LexTotal(a[1..], b[1..]);
      assert a == [a[0]] + a[1..] && b == [b[0]] + b[1..];
    }
  }

  lemma {:induction false} LexTransitive(a: string, b: string, c: string)
    requires LexLe(a, b) && LexLe(b, c)
    ensures LexLe(a, c)
  {
    if a != "" && a[0] == b[0] == c[0] {
      LexTransitive(a[1..], b[1..], c[1..]);
    }
  }

  /** The value the tree stands for; what an object holds does not show in its text. */
  function AsValue(t: Tree): Json.Value {
    match t
    case Null => Json.Null
    case Bool(b) => Json.Bool(b)
    case Num(n) => Json.Num(n)
    case Str(s) => Json.Str(s)
    case Arr(elems) => Json.Arr(seq(|elems|, i requires 0 <= i < |elems| => AsValue(elems[i])))
    case Obj(_) => Json.Obj(map[])
  }

  /** String(t), by which sort() compares elements. */
  function Text(t: Tree): string { Json.Text(AsValue(t)) }

  function TextLe(): (Tree, Tree) -> bool { (a: Tree, b: Tree) => LexLe(Text(a), Text(b)) }

  function KeyLe(): (Property, Property) -> bool { (a: Property, b: Property) => LexLe(a.key, b.key) }

  lemma TextOrder(s: seq<Tree>)
    ensures TotalPreorderOn(s, TextLe())
  {
    hide Text, LexLe;
    forall a, b | a in s && b in s ensures TextLe()(a, b) || TextLe()(b, a) { LexTotal(Text(a), Text(b)); }
    forall a, b, c | a in s && b in s && c in s && TextLe()(a, b) && TextLe()(b, c) ensures TextLe()(a, c) {
      LexTransitive(Text(a), Text(b), Text(c));
    }
  }

  lemma KeyOrder(s: seq<Property>)
    ensures TotalPreorderOn(s, KeyLe())
  {
    hide LexLe;
    forall a, b | a in s && b in s ensures KeyLe()(a, b) || KeyLe()(b, a) { LexTotal(a.key, b.key); }
    forall a, b, c | a in s && b in s && c in s && KeyLe()(a, b) && KeyLe()(b, c) ensures KeyLe()(a, c) {
      LexTransitive(a.key, b.key, c.key);
    }
  }

  // ----- normalize ----------------------------------------------------------

  function Normalize(t: Tree): Tree
    decreases t
  {
    match t
    case Arr(elems) => Arr(StableSort(NormalizeAll(elems), TextLe()))
    case Obj(entries) => Obj(StableSort(NormalizeValues(entries), KeyLe()))
    case _ => t
  }

  function NormalizeAll(elems: seq<Tree>): (r: seq<Tree>)
    ensures |r| == |elems| && forall i | 0 <= i < |elems| :: r[i] == Normalize(elems[i])
    decreases elems
  {
    seq(|elems|, i requires 0 <= i < |elems| => Normalize(elems[i]))
  }

  /** The order of keys does not depend on the values, so these may be normalized before the sort. */
  function NormalizeValues(entries: seq<Property>): (r: seq<Property>)
    ensures |r| == |entries|
    ensures forall i | 0 <= i < |entries| :: r[i] == Property(entries[i].key, Normalize(entries[i].value))
    decreases entries
  {
    seq(|entries|, i requires 0 <= i < |entries| => Property(entries[i].key, Normalize(entries[i].value)))
  }

  // ----- sorted sequences ---------------------------------------------------

  lemma {:induction false} SortOfSorted<T>(s: seq<T>, le: (T, T) -> bool)
    requires SortedBy(s, le)
    ensures StableSort(s, le) == s
  {
    if s != [] {
      assert forall i | 0 <= i < |s[1..]| :: s[1..][i] == s[i + 1];
      SortOfSorted(s[1..], le);
      assert s == [s[0]] + s[1..];
    }
  }

  lemma TailBag<T>(s: seq<T>)
    requires s != []
    ensures multiset(s[1..]) == multiset(s) - multiset{s[0]}
  {
    assert s == [s[0]] + s[1..];
  }

  lemma SortedHeads<T>(s: seq<T>, t: seq<T>, le: (T, T) -> bool)
    requires s != [] && t != [] && s[0] in t && t[0] in s
    requires SortedBy(s, le) && SortedBy(t, le)
    ensures s[0] == t[0] || (le(s[0], t[0]) && le(t[0], s[0]))
  {
    var i :| 0 <= i < |t| && t[i] == s[0];
    var j :| 0 <= j < |s| && s[j] == t[0];
    assert i > 0 ==> le(t[0], t[i]);
    assert j > 0 ==> le(s[0], s[j]);
  }

  /** Where equally ranked elements are equal, a sorted order is determined by its elements. */
  lemma {:induction false} SortedIsUnique<T>(s: seq<T>, t: seq<T>, le: (T, T) -> bool)
    requires multiset(s) == multiset(t)
    requires SortedBy(s, le) && SortedBy(t, le)
    requires forall a, b | a in s && b in s :: le(a, b) && le(b, a) ==> a == b
    ensures s == t
  {
    if s == [] {
      assert |t| == |multiset(t)| == 0;
    } else {
      assert s[0] in multiset(t);
      assert t[0] in multiset(s);
      SortedHeads(s, t, le);
      TailBag(s);
      TailBag(t);
      assert forall i, j | 0 <= i < j < |s[1..]| :: le(s[1..][i], s[1..][j]);
      assert forall i, j | 0 <= i < j < |t[1..]| :: le(t[1..][i], t[1..][j]);
      SortedIsUnique(s[1..], t[1..], le);
    }
  }

  // ----- idempotence --------------------------------------------------------

  /** Normalizing a normal form changes nothing. */
  lemma {:induction false} NormalizeIsIdempotent(t: Tree)
    ensures Normalize(Normalize(t)) == Normalize(t)
    decreases t
  {
    match t
    case Arr(elems) =>
      var sorted := StableSort(NormalizeAll(elems), TextLe());
      forall i | 0 <= i < |sorted| ensures Normalize(sorted[i]) == sorted[i] {
        SortMember(NormalizeAll(elems), TextLe(), sorted[i]);
        var k :| 0 <= k < |elems| && NormalizeAll(elems)[k] == sorted[i];
        NormalizeIsIdempotent(elems[k]);
      }
      assert NormalizeAll(sorted) == sorted;
      TextOrder(NormalizeAll(elems));
      SortIsSorted(NormalizeAll(elems), TextLe());
      SortOfSorted(sorted, TextLe());
    case Obj(entries) =>
      var sorted := StableSort(NormalizeValues(entries), KeyLe());
      forall i | 0 <= i < |sorted| ensures Normalize(sorted[i].value) == sorted[i].value {
        SortMember(NormalizeValues(entries), KeyLe(), sorted[i]);
        var k :| 0 <= k < |entries| && NormalizeValues(entries)[k] == sorted[i];
        NormalizeIsIdempotent(entries[k].value);
      }
      assert NormalizeValues(sorted) == sorted;
      KeyOrder(NormalizeValues(entries));
      SortIsSorted(NormalizeValues(entries), KeyLe());
      SortOfSorted(sorted, KeyLe());
    case _ =>
  }

  // ----- completeness -------------------------------------------------------

  predicate AllStrings(elems: seq<Tree>) { forall i | 0 <= i < |elems| :: elems[i].Str? }

  predicate AllObjects(elems: seq<Tree>) { forall i | 0 <= i < |elems| :: elems[i].Obj? }

  predicate KeysUnique(entries: seq<Property>) {
    forall i, j | 0 <= i < j < |entries| :: entries[i].key != entries[j].key
  }

  /** Arrays hold only strings or only objects; keys are not repeated. */
  predicate WellFormed(t: Tree)
    decreases t
  {
    match t
    case Arr(elems) =>
      (AllStrings(elems) || AllObjects(elems)) && forall i | 0 <= i < |elems| :: WellFormed(elems[i])
    case Obj(entries) =>
      KeysUnique(entries) && forall i | 0 <= i < |entries| :: WellFormed(entries[i].value)
    case _ => true
  }

  predicate HasKey(f: seq<Property>, key: string) { exists j | 0 <= j < |f| :: f[j].key == key }

  predicate SameKeys(e: seq<Property>, f: seq<Property>) {
    (forall i | 0 <= i < |e| :: HasKey(f, e[i].key)) && forall j | 0 <= j < |f| :: HasKey(e, f[j].key)
  }

  /** The trees differ only by the order of object keys and of string arrays. */
  predicate SameUpToOrder(a: Tree, b: Tree)
    decreases a
  {
    match (a, b)
    case (Arr(x), Arr(y)) =>
      if AllStrings(x) && AllStrings(y) then multiset(x) == multiset(y)
      else |x| == |y| && forall i | 0 <= i < |x| :: SameUpToOrder(x[i], y[i])
    case (Obj(e), Obj(f)) =>
      && SameKeys(e, f)
      && forall i, j | 0 <= i < |e| && 0 <= j < |f| && e[i].key == f[j].key ::
           SameUpToOrder(e[i].value, f[j].value)
    case _ => a == b
  }

  lemma {:induction false} ObjectsKeepOrder(elems: seq<Tree>)
    requires AllObjects(elems)
    ensures StableSort(elems, TextLe()) == elems
  {
    forall i, j | 0 <= i < j < |elems| ensures TextLe()(elems[i], elems[j]) {
      LexTotal(Text(elems[i]), Text(elems[j]));
    }
    SortOfSorted(elems, TextLe());
  }

  lemma StringsByText(a: Tree, b: Tree)
    requires a.Str? && b.Str? && TextLe()(a, b) && TextLe()(b, a)
    ensures a == b
  {
    hide LexLe;
    LexTotal(a.s, b.s);
  }

  lemma StringArraysIff(x: seq<Tree>, y: seq<Tree>)
    requires AllStrings(x) && AllStrings(y)
    ensures Normalize(Arr(x)) == Normalize(Arr(y)) <==> multiset(x) == multiset(y)
  {
    assert NormalizeAll(x) == x && NormalizeAll(y) == y;
    hide Text, LexLe, StableSort;
    var s, t := StableSort(x, TextLe()), StableSort(y, TextLe());
    SortIsPermutation(x, TextLe());
    SortIsPermutation(y, TextLe());
    TextOrder(x);
    TextOrder(y);
    SortIsSorted(x, TextLe());
    SortIsSorted(y, TextLe());
    if multiset(x) == multiset(y) {
      forall a, b | a in s && b in s && TextLe()(a, b) && TextLe()(b, a) ensures a == b {
        SortMember(x, TextLe(), a);
        SortMember(x, TextLe(), b);
        StringsByText(a, b);
      }
      SortedIsUnique(s, t, TextLe());
    }
  }

  lemma ObjectsIff(e: seq<Property>, f: seq<Property>)
    requires KeysUnique(e) && KeysUnique(f)
    ensures Normalize(Obj(e)) == Normalize(Obj(f)) <==> SameValues(e, f)
  {
    var x, y := NormalizeValues(e), NormalizeValues(f);
    if StableSort(x, KeyLe()) == StableSort(y, KeyLe()) {
      forall p ensures p in x <==> p in y {
        SortMember(x, KeyLe(), p);
        SortMember(y, KeyLe(), p);
      }
      MembersGiveValues(e, f);
    }
    if SameValues(e, f) {
      ValuesGiveMembers(e, f);
      DistinctSameMembers(x, y);
      SortByKeyIsUnique(x, y);
    }
  }

  lemma SortByKeyIsUnique(x: seq<Property>, y: seq<Property>)
    requires multiset(x) == multiset(y) && KeysUnique(x)
    ensures StableSort(x, KeyLe()) == StableSort(y, KeyLe())
  {
    var s, t := StableSort(x, KeyLe()), StableSort(y, KeyLe());
    SortIsPermutation(x, KeyLe());
    SortIsPermutation(y, KeyLe());
    KeyOrder(x);
    KeyOrder(y);
    SortIsSorted(x, KeyLe());
    SortIsSorted(y, KeyLe());
    hide StableSort, LexLe;
    forall a, b | a in s && b in s && KeyLe()(a, b) && KeyLe()(b, a) ensures a == b {
      SortMember(x, KeyLe(), a);
      SortMember(x, KeyLe(), b);
      LexTotal(a.key, b.key);
    }
    SortedIsUnique(s, t, KeyLe());
  }

  predicate SameValues(e: seq<Property>, f: seq<Property>) {
    && SameKeys(e, f)
    && forall i, j | 0 <= i < |e| && 0 <= j < |f| && e[i].key == f[j].key ::
         Normalize(e[i].value) == Normalize(f[j].value)
  }

  lemma MemberIsAt(e: seq<Property>, f: seq<Property>, i: nat) returns (j: nat)
    requires i < |e| && NormalizeValues(e)[i] in NormalizeValues(f)
    ensures j < |f| && f[j].key == e[i].key && Normalize(f[j].value) == Normalize(e[i].value)
  {
    hide Normalize, NormalizeValues;
    j :| 0 <= j < |f| && NormalizeValues(f)[j] == NormalizeValues(e)[i];
  }

  lemma MembersGiveValues(e: seq<Property>, f: seq<Property>)
    requires KeysUnique(e) && KeysUnique(f)
    requires forall p :: p in NormalizeValues(e) <==> p in NormalizeValues(f)
    ensures SameValues(e, f)
  {
    hide Normalize, NormalizeValues;
    forall i | 0 <= i < |e| ensures HasKey(f, e[i].key) {
      assert NormalizeValues(e)[i] in NormalizeValues(e);
      var j := MemberIsAt(e, f, i);
    }
    forall j | 0 <= j < |f| ensures HasKey(e, f[j].key) {
      assert NormalizeValues(f)[j] in NormalizeValues(f);
      var i := MemberIsAt(f, e, j);
    }
    forall i, j | 0 <= i < |e| && 0 <= j < |f| && e[i].key == f[j].key
      ensures Normalize(e[i].value) == Normalize(f[j].value)
    {
      assert NormalizeValues(e)[i] in NormalizeValues(e);
      var k := MemberIsAt(e, f, i);
      assert k == j;
    }
  }

  lemma ValuesGiveMembers(e: seq<Property>, f: seq<Property>)
    requires KeysUnique(e) && KeysUnique(f) && SameValues(e, f)
    ensures Distinct(NormalizeValues(e)) && Distinct(NormalizeValues(f))
    ensures forall p :: p in NormalizeValues(e) <==> p in NormalizeValues(f)
  {
    var x, y := NormalizeValues(e), NormalizeValues(f);
    hide Normalize, NormalizeValues;
    forall p ensures p in x <==> p in y {
      if p in x {
        var i :| 0 <= i < |x| && x[i] == p;
        var j :| 0 <= j < |f| && f[j].key == e[i].key;
        assert y[j] == p;
      }
      if p in y {
        var j :| 0 <= j < |y| && y[j] == p;
        var i :| 0 <= i < |e| && e[i].key == f[j].key;
        assert x[i] == p;
      }
    }
  }

  /** Normal forms of object arrays are equal exactly when the elements' are. */
  lemma ObjectArraysIff(x: seq<Tree>, y: seq<Tree>)
    requires AllObjects(x) && AllObjects(y)
    ensures Normalize(Arr(x)) == Normalize(Arr(y)) <==>
      (|x| == |y| && forall i | 0 <= i < |x| :: Normalize(x[i]) == Normalize(y[i]))
  {
    ObjectsKeepOrder(NormalizeAll(x));
    ObjectsKeepOrder(NormalizeAll(y));
  }

  /** An array of strings is never normalized to the form of an array of objects. */
  lemma MixedArrays(x: seq<Tree>, y: seq<Tree>)
    requires AllStrings(x) && AllObjects(y) && y != []
    ensures Normalize(Arr(x)) != Normalize(Arr(y))
  {
    assert NormalizeAll(x) == x;
    ObjectsKeepOrder(NormalizeAll(y));
    SortIsPermutation(x, TextLe());
    var s := StableSort(x, TextLe());
    forall i | 0 <= i < |s| ensures s[i].Str? { SortMember(x, TextLe(), s[i]); }
    assert Normalize(y[0]).Obj?;
  }

  lemma MixedDiffer(x: seq<Tree>, y: seq<Tree>)
    requires (AllStrings(x) && AllObjects(y)) || (AllObjects(x) && AllStrings(y))
    requires x != [] || y != []
    ensures !SameUpToOrder(Arr(x), Arr(y))
  {
    assert x != [] ==> x[0].Str? != x[0].Obj?;
    assert y != [] ==> y[0].Str? != y[0].Obj?;
    assert |x| == |y| ==> !SameUpToOrder(x[0], y[0]);
  }

  lemma ArraysCanonical(x: seq<Tree>, y: seq<Tree>)
    requires (AllStrings(x) || AllObjects(x)) && (AllStrings(y) || AllObjects(y))
    requires forall i | 0 <= i < |x| && i < |y| :: Normalize(x[i]) == Normalize(y[i]) <==> SameUpToOrder(x[i], y[i])
    ensures Normalize(Arr(x)) == Normalize(Arr(y)) <==> SameUpToOrder(Arr(x), Arr(y))
  {
    hide Normalize;
    if AllStrings(x) && AllStrings(y) {
      StringArraysIff(x, y);
    } else if AllObjects(x) && AllObjects(y) {
      ObjectArraysIff(x, y);
    } else if AllStrings(x) {
      MixedArrays(x, y);
      MixedDiffer(x, y);
    } else {
      MixedArrays(y, x);
      MixedDiffer(x, y);
    }
  }

  lemma ObjectsCanonical(e: seq<Property>, f: seq<Property>)
    requires KeysUnique(e) && KeysUnique(f)
    requires forall i, j | 0 <= i < |e| && 0 <= j < |f| && e[i].key == f[j].key ::
      Normalize(e[i].value) == Normalize(f[j].value) <==> SameUpToOrder(e[i].value, f[j].value)
    ensures Normalize(Obj(e)) == Normalize(Obj(f)) <==> SameUpToOrder(Obj(e), Obj(f))
  {
    ObjectsIff(e, f);
  }

  /** Equal normal forms mean: equal up to the order of object keys and of string arrays. */
  lemma {:induction false} NormalizeIsCanonical(a: Tree, b: Tree)
    requires WellFormed(a) && WellFormed(b)
    ensures Normalize(a) == Normalize(b) <==> SameUpToOrder(a, b)
    decreases a
  {
    match (a, b)
    case (Arr(x), Arr(y)) =>
      forall i | 0 <= i < |x| && i < |y| ensures Normalize(x[i]) == Normalize(y[i]) <==> SameUpToOrder(x[i], y[i]) {
        NormalizeIsCanonical(x[i], y[i]);
      }
      ArraysCanonical(x, y);
    case (Obj(e), Obj(f)) =>
      forall i, j | 0 <= i < |e| && 0 <= j < |f| && e[i].key == f[j].key
        ensures Normalize(e[i].value) == Normalize(f[j].value) <==> SameUpToOrder(e[i].value, f[j].value)
      {
        NormalizeIsCanonical(e[i].value, f[j].value);
      }
      ObjectsCanonical(e, f);
    case _ =>
      hide StableSort, NormalizeAll, NormalizeValues, WellFormed, SameKeys;
  }

  // ----- what the normal form is --------------------------------------------

  /** The first one is a prefix of the other, or has the smaller character where they first differ. */
  ghost predicate ComesFirst(a: string, b: string) {
    exists k: nat :: k <= |a| && k <= |b| && a[..k] == b[..k] && (k == |a| || (k < |b| && a[k] < b[k]))
  }

  lemma {:induction false} LexIs(a: string, b: string)
    ensures LexLe(a, b) <==> ComesFirst(a, b)
  {
    if a == "" {
      assert a[..0] == b[..0];
    } else if b != "" {
      LexIs(a[1..], b[1..]);
      if LexLe(a, b) {
        if a[0] < b[0] {
          assert a[..0] == b[..0];
        } else {
          var k: nat :| k <= |a[1..]| && k <= |b[1..]| && a[1..][..k] == b[1..][..k]
            && (k == |a[1..]| || (k < |b[1..]| && a[1..][k] < b[1..][k]));
          assert a[..k + 1] == [a[0]] + a[1..][..k] && b[..k + 1] == [b[0]] + b[1..][..k];
        }
      }
      if ComesFirst(a, b) {
        var k: nat :| k <= |a| && k <= |b| && a[..k] == b[..k] && (k == |a| || (k < |b| && a[k] < b[k]));
        if k > 0 {
          assert a[0] == a[..k][0] == b[..k][0] == b[0];
          assert a[1..][..k - 1] == a[..k][1..] && b[1..][..k - 1] == b[..k][1..];
          assert k < |a| && k < |b| ==> a[1..][k - 1] == a[k] && b[1..][k - 1] == b[k];
        }
      }
    }
  }

  /** Keys and elements ascend in the whole tree. */
  ghost predicate Ascends(t: Tree)
    decreases t
  {
    match t
    case Arr(elems) =>
      && (forall i, j | 0 <= i < j < |elems| :: ComesFirst(Text(elems[i]), Text(elems[j])))
      && forall i | 0 <= i < |elems| :: Ascends(elems[i])
    case Obj(entries) =>
      && (forall i, j | 0 <= i < j < |entries| :: ComesFirst(entries[i].key, entries[j].key))
      && forall i | 0 <= i < |entries| :: Ascends(entries[i].value)
    case _ => true
  }

  lemma SortedTexts(x: seq<Tree>)
    ensures var s := StableSort(x, TextLe());
      && (forall i, j | 0 <= i < j < |s| :: ComesFirst(Text(s[i]), Text(s[j])))
      && forall e :: e in s <==> e in x
  {
    var s := StableSort(x, TextLe());
    TextOrder(x);
    SortIsSorted(x, TextLe());
    forall e ensures e in s <==> e in x { SortMember(x, TextLe(), e); }
    hide Text, StableSort, LexLe, ComesFirst;
    forall i, j | 0 <= i < j < |s| ensures ComesFirst(Text(s[i]), Text(s[j])) {
      assert TextLe()(s[i], s[j]);
      LexIs(Text(s[i]), Text(s[j]));
    }
  }

  lemma SortedKeys(x: seq<Property>)
    ensures var s := StableSort(x, KeyLe());
      && (forall i, j | 0 <= i < j < |s| :: ComesFirst(s[i].key, s[j].key))
      && forall e :: e in s <==> e in x
  {
    var s := StableSort(x, KeyLe());
    KeyOrder(x);
    SortIsSorted(x, KeyLe());
    forall e ensures e in s <==> e in x { SortMember(x, KeyLe(), e); }
    hide StableSort, LexLe, ComesFirst;
    forall i, j | 0 <= i < j < |s| ensures ComesFirst(s[i].key, s[j].key) {
      assert KeyLe()(s[i], s[j]);
      LexIs(s[i].key, s[j].key);
    }
  }

  lemma {:induction false} NormalFormAscends(t: Tree)
    ensures Ascends(Normalize(t))
    decreases t
  {
    match t
    case Arr(elems) =>
      var x := NormalizeAll(elems);
      SortedTexts(x);
      hide StableSort, Text, ComesFirst;
      forall i | 0 <= i < |StableSort(x, TextLe())| ensures Ascends(StableSort(x, TextLe())[i]) {
        assert StableSort(x, TextLe())[i] in x;
        var k :| 0 <= k < |x| && x[k] == StableSort(x, TextLe())[i];
        NormalFormAscends(elems[k]);
      }
    case Obj(entries) =>
      var x := NormalizeValues(entries);
      SortedKeys(x);
      hide StableSort, ComesFirst;
      forall i | 0 <= i < |StableSort(x, KeyLe())| ensures Ascends(StableSort(x, KeyLe())[i].value) {
        assert StableSort(x, KeyLe())[i] in x;
        var k :| 0 <= k < |x| && x[k] == StableSort(x, KeyLe())[i];
        NormalFormAscends(entries[k].value);
      }
    case _ =>
  }

  lemma {:induction false} NormalFormIsWellFormed(t: Tree)
    requires WellFormed(t)
    ensures WellFormed(Normalize(t))
    decreases t
  {
    match t
    case Arr(elems) =>
      var x := NormalizeAll(elems);
      SortedTexts(x);
      hide StableSort, Text, ComesFirst;
      var s := StableSort(x, TextLe());
      forall i | 0 <= i < |s| ensures WellFormed(s[i]) && exists k :: 0 <= k < |elems| && s[i] == Normalize(elems[k]) {
        assert s[i] in x;
        var k :| 0 <= k < |x| && x[k] == s[i];
        NormalFormIsWellFormed(elems[k]);
      }
      assert AllStrings(elems) ==> AllStrings(s);
      assert AllObjects(elems) ==> AllObjects(s);
    case Obj(entries) =>
      var x := NormalizeValues(entries);
      SortedKeys(x);
      SortIsPermutation(x, KeyLe());
      hide StableSort, ComesFirst;
      var s := StableSort(x, KeyLe());
      forall i | 0 <= i < |s| ensures WellFormed(s[i].value) {
        assert s[i] in x;
        var k :| 0 <= k < |x| && x[k] == s[i];
        NormalFormIsWellFormed(entries[k].value);
      }
      KeysStayUnique(x, s);
    case _ =>
  }

  lemma KeysStayUnique(x: seq<Property>, s: seq<Property>)
    requires KeysUnique(x) && multiset(x) == multiset(s)
    ensures KeysUnique(s)
  {
    DistinctPermutation(x, s);
    forall i, j | 0 <= i < j < |s| ensures s[i].key != s[j].key {
      assert s[i] in multiset(x) && s[j] in multiset(x);
      var k :| 0 <= k < |x| && x[k] == s[i];
      var l :| 0 <= l < |x| && x[l] == s[j];
    }
  }

  /** The normal form is the given tree but for the order of keys and string arrays, and its order ascends. */
  lemma NormalFormIsTheSame(t: Tree)
    requires WellFormed(t)
    ensures SameUpToOrder(t, Normalize(t)) && Ascends(Normalize(t))
  {
    NormalFormIsWellFormed(t);
    NormalizeIsIdempotent(t);
    NormalizeIsCanonical(t, Normalize(t));
    NormalFormAscends(t);
    hide *;
  }
}
