/** The string that stands for a tuple of key values: the values joined by '|'. */
module GroupKeys {
  import opened Sequences

  function Joined(parts: seq<string>): string {
    if parts == [] then ""
    else if |parts| == 1 then parts[0]
    else parts[0] + "|" + Joined(parts[1..])
  }

  predicate BarFree(s: string) { '|' !in s }

  predicate AllBarFree(parts: seq<string>) { forall p | p in parts :: BarFree(p) }

  function IsBar(): char -> int { c => if c == '|' then 1 else 0 }

  function Bars(s: string): int { Sum(s, IsBar()) }

  lemma {:induction false} BarsZero(s: string)
    ensures 0 <= Bars(s)
    ensures Bars(s) == 0 <==> BarFree(s)
  {
    if s != [] {
      BarsZero(s[1..]);
      assert s == [s[0]] + s[1..];
    }
  }

  lemma JoinedBars(parts: seq<string>)
    requires |parts| >= 2
    ensures Bars(Joined(parts)) == Bars(parts[0]) + 1 + Bars(Joined(parts[1..]))
  {
    SumConcat(parts[0] + "|", Joined(parts[1..]), IsBar());
    SumConcat(parts[0], "|", IsBar());
  }

  lemma {:induction false} BarsCountSeparators(parts: seq<string>)
    requires parts != []
    ensures Bars(Joined(parts)) >= |parts| - 1
    ensures Bars(Joined(parts)) == |parts| - 1 <==> AllBarFree(parts)
  {
    BarsZero(parts[0]);
    if |parts| >= 2 {
      JoinedBars(parts);
      BarsCountSeparators(parts[1..]);
      assert parts == [parts[0]] + parts[1..];
    }
  }

  /** Without bars in the parts the joined string determines them. */
  lemma {:induction false} BarFreeJoinsApart(t: seq<string>, u: seq<string>)
    requires |t| == |u| && AllBarFree(t) && AllBarFree(u)
    requires Joined(t) == Joined(u)
    ensures t == u
  {
    if |t| >= 2 {
      var a, b := t[0], u[0];
      var s := Joined(t);
      assert s == a + ("|" + Joined(t[1..])) == b + ("|" + Joined(u[1..]));
      SameHead(a, b, "|" + Joined(t[1..]), "|" + Joined(u[1..]));
      assert Joined(t[1..]) == ("|" + Joined(t[1..]))[1..];
      assert Joined(u[1..]) == ("|" + Joined(u[1..]))[1..];
      BarFreeJoinsApart(t[1..], u[1..]);
      assert t == [a] + t[1..] && u == [b] + u[1..];
    }
  }

  lemma SameHead(a: string, b: string, s: string, t: string)
    requires BarFree(a) && BarFree(b) && a + s == b + t
    requires |s| > 0 && |t| > 0 && s[0] == '|' == t[0]
    ensures a == b && s == t
  {
    assert (a + s)[|a|] == '|' && (b + t)[|b|] == '|';
    assert forall i | 0 <= i < |b| :: (b + t)[i] == b[i] && b[i] in b;
    assert forall i | 0 <= i < |a| :: (a + s)[i] == a[i] && a[i] in a;
    assert |b| <= |a| && |a| <= |b|;
    assert (a + s)[..|a|] == a && (b + t)[..|b|] == b;
    assert (a + s)[|a|..] == s && (b + t)[|b|..] == t;
  }

  /** No other tuple of the same length has the same joined string. */
  ghost predicate IsUnambiguous(t: seq<string>) {
    forall u | |u| == |t| && Joined(u) == Joined(t) :: u == t
  }

  /** A tuple can be read back from its joined string exactly when it has at most one part, or
      none of its parts contains the separator. */
  lemma UnambiguousIff(t: seq<string>)
    ensures IsUnambiguous(t) <==> |t| <= 1 || AllBarFree(t)
  {
    if |t| >= 2 {
      if AllBarFree(t) {
        forall u | |u| == |t| && Joined(u) == Joined(t) ensures u == t {
          BarsCountSeparators(t);
          BarsCountSeparators(u);
          BarFreeJoinsApart(t, u);
        }
      } else {
        var u := Rival(t);
        assert |u| == |t| && Joined(u) == Joined(t) && u != t;
      }
    }
  }

  /** Another tuple with the same joined string: a bar is moved across a separator. */
  lemma {:induction false} Rival(t: seq<string>) returns (u: seq<string>)
    requires |t| >= 2 && !AllBarFree(t)
    ensures |u| == |t| && Joined(u) == Joined(t) && u != t
  {
    if i :| 0 <= i < |t[0]| && t[0][i] == '|' {
      var p, q := t[0][..i], t[0][i + 1..];
      assert t[0] == p + "|" + q;
      u := [p, q + "|" + t[1]] + t[2..];
      MoveBar(p, q, t[1], t[2..]);
      assert t == [p + "|" + q, t[1]] + t[2..];
    } else if |t| == 2 {
      assert t == [t[0], t[1]];
      var i :| 0 <= i < |t[1]| && t[1][i] == '|';
      var p, q := t[1][..i], t[1][i + 1..];
      assert t[1] == p + "|" + q;
      u := [t[0] + "|" + p, q];
      MoveBar(t[0], p, q, []);
      assert t == [t[0], p + "|" + q] + [] && u == [t[0] + "|" + p, q] + [];
    } else {
      assert t == [t[0]] + t[1..];
      var rest := Rival(t[1..]);
      u := [t[0]] + rest;
      assert u[1..] == rest;
    }
  }

  lemma MoveBar(p: string, q: string, r: string, rest: seq<string>)
    ensures Joined([p + "|" + q, r] + rest) == Joined([p, q + "|" + r] + rest)
  {
    var a, b := [p + "|" + q, r] + rest, [p, q + "|" + r] + rest;
    assert a[1..] == [r] + rest && b[1..] == [q + "|" + r] + rest;
    if rest == [] {
      assert p + "|" + q + "|" + r == p + "|" + (q + "|" + r);
    } else {
      assert a[1..][1..] == rest && b[1..][1..] == rest;
      assert p + "|" + q + "|" + (r + "|" + Joined(rest)) == p + "|" + ((q + "|" + r) + "|" + Joined(rest));
    }
  }
}
