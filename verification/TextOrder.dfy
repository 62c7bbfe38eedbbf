/** Text as SQL and Python order it: by code points, a proper prefix first. */
module TextOrder {

  predicate Less(a: string, b: string) {
    if b == [] then false
    else if a == [] then true
    else if a[0] != b[0] then a[0] < b[0]
    else Less(a[1..], b[1..])
  }

  lemma {:induction false} LessTransitive(a: string, b: string, c: string)
    requires Less(a, b) && Less(b, c)
    ensures Less(a, c)
  {
    if a != [] && a[0] == b[0] == c[0] {
      LessTransitive(a[1..], b[1..], c[1..]);
    }
  }

  lemma {:induction false} LessTotal(a: string, b: string)
    ensures a == b || Less(a, b) || Less(b, a)
    ensures !(Less(a, b) && Less(b, a)) && !Less(a, a)
  {
    if a != [] && b != [] && a[0] == b[0] {
      LessTotal(a[1..], b[1..]);
      assert a == [a[0]] + a[1..] && b == [b[0]] + b[1..];
    }
    LessIrreflexive(a);
  }

  lemma {:induction false} LessIrreflexive(a: string)
    ensures !Less(a, a)
  {
    if a != [] {
      LessIrreflexive(a[1..]);
    }
  }

  /** A common prefix does not matter. */
  lemma {:induction false} LessPrefix(prefix: string, a: string, b: string)
    ensures Less(prefix + a, prefix + b) == Less(a, b)
  {
    if prefix == [] {
      assert prefix + a == a && prefix + b == b;
    } else {
      LessPrefix(prefix[1..], a, b);
      assert (prefix + a)[1..] == prefix[1..] + a && (prefix + b)[1..] == prefix[1..] + b;
    }
  }

  /** Between texts of one length the first difference decides, whatever follows. */
  lemma {:induction false} LessByHead(a: string, b: string, c: string, d: string)
    requires |a| == |b| && a != b
    ensures Less(a + c, b + d) == Less(a, b)
  {
    if a[0] == b[0] {
      assert a == [a[0]] + a[1..] && b == [b[0]] + b[1..];
      LessByHead(a[1..], b[1..], c, d);
      assert (a + c)[1..] == a[1..] + c && (b + d)[1..] == b[1..] + d;
    }
  }

  predicate IsLeast(m: string, texts: set<string>) {
    m in texts && forall t | t in texts :: t == m || Less(m, t)
  }

  lemma {:induction false} LeastExists(texts: set<string>)
    requires texts != {}
    ensures exists m :: IsLeast(m, texts)
    decreases |texts|
  {
    var t :| t in texts;
    if texts == {t} {
      assert IsLeast(t, texts);
    } else {
      LeastExists(texts - {t});
      var rest :| IsLeast(rest, texts - {t});
      LessTotal(t, rest);
      var m := if Less(t, rest) then t else rest;
      forall u | u in texts ensures u == m || Less(m, u) {
        if u != t && u != rest && m == t {
          LessTransitive(t, rest, u);
        }
      }
      assert IsLeast(m, texts);
    }
  }

  lemma LeastUnique(m: string, n: string, texts: set<string>)
    requires IsLeast(m, texts) && IsLeast(n, texts)
    ensures m == n
  {
    LessTotal(m, n);
  }

  /** Python's `sorted` on a set. */
  ghost function Ascending(texts: set<string>): (s: seq<string>)
    ensures |s| == |texts| && forall t :: t in s <==> t in texts
    decreases |texts|
  {
    if texts == {} then []
    else
      var least := Least(texts);
      [least] + Ascending(texts - {least})
  }

  ghost function Least(texts: set<string>): (m: string)
    requires texts != {}
    ensures IsLeast(m, texts)
  {
    LeastExists(texts);
    var m :| IsLeast(m, texts);
    m
  }

  lemma {:induction false} AscendingSorted(texts: set<string>)
    ensures forall i, j | 0 <= i < j < |Ascending(texts)| :: Less(Ascending(texts)[i], Ascending(texts)[j])
    decreases |texts|
  {
    if texts != {} {
      AscendingSorted(texts - {Least(texts)});
    }
  }

  lemma AscendingFrom(m: string, texts: set<string>)
    requires IsLeast(m, texts)
    ensures Ascending(texts) == [m] + Ascending(texts - {m})
  {
    LeastUnique(m, Least(texts), texts);
  }

  lemma LeastIsMember(m: string, texts: set<string>)
    requires IsLeast(m, texts)
    ensures m in texts
  {}

  method PickLeast(texts: set<string>) returns (least: string)
    requires texts != {}
    ensures IsLeast(least, texts)
  {
    hide Less;
    LeastExists(texts);
    var m :| m in texts && forall t | t in texts :: t == m || Less(m, t);
    least := m;
  }

  method Sort(texts: set<string>) returns (sorted: seq<string>)
    ensures sorted == Ascending(texts)
  {
    hide Ascending, IsLeast;
    sorted := [];
    var left := texts;
    while left != {}
      invariant sorted + Ascending(left) == Ascending(texts)
      decreases |left|
    {
      var m := PickLeast(left);
      AscendingFrom(m, left);
      assert m in left by { LeastIsMember(m, left); }
      assert sorted + ([m] + Ascending(left - {m})) == sorted + [m] + Ascending(left - {m});
      sorted, left := sorted + [m], left - {m};
    }
    AscendingNothing();
    assert sorted + [] == sorted;
  }

  lemma AscendingNothing()
    ensures Ascending({}) == []
  {}
}
