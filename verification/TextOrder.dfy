/** The order of text keys, character by character, and least elements under it. */
module TextOrder {

  /** Strict lexicographic order, the collation of the key columns. */
  predicate Before(a: string, b: string) {
    b != [] && (a == [] || a[0] < b[0] || (a[0] == b[0] && Before(a[1..], b[1..])))
  }

  lemma {:induction false} BeforeIrreflexive(a: string)
    ensures !Before(a, a)
  {
    if a == [] {
    } else {
      BeforeIrreflexive(a[1..]);
    }
  }

  lemma {:induction false} BeforeTransitive(a: string, b: string, c: string)
    requires Before(a, b) && Before(b, c)
    ensures Before(a, c)
  {
    if a == [] || a[0] != b[0] || b[0] != c[0] {
    } else {
      BeforeTransitive(a[1..], b[1..], c[1..]);
    }
  }

  lemma {:induction false} BeforeTotal(a: string, b: string)
    ensures a == b || Before(a, b) || Before(b, a)
  {
    if a == [] || b == [] || a[0] != b[0] {
    } else {
      BeforeTotal(a[1..], b[1..]);
      if a[1..] == b[1..] {
        assert a == [a[0]] + a[1..] && b == [b[0]] + b[1..];
      }
    }
  }

  ghost predicate IsLeast(s: set<string>, x: string) {
    x in s && forall y | y in s && y != x :: Before(x, y)
  }

  lemma {:induction false} LeastExists(s: set<string>) returns (x: string)
    requires s != {}
    ensures IsLeast(s, x)
    decreases |s|
  {
    x :| x in s;
    if s == {x} {
    } else {
      assert s - {x} != {};
      var y := LeastExists(s - {x});
      BeforeTotal(x, y);
      if Before(y, x) {
        x := y;
      } else {
        forall z | z in s && z != x ensures Before(x, z) {
          if z != y { BeforeTransitive(x, y, z); }
        }
      }
    }
  }

  lemma SomeLeast(s: set<string>)
    requires s != {}
    ensures exists x :: IsLeast(s, x)
  {
    var x := LeastExists(s);
  }

  lemma LeastUnique(s: set<string>, x: string, y: string)
    requires IsLeast(s, x) && IsLeast(s, y)
    ensures x == y
  {
    if x != y {
      BeforeTransitive(x, y, x);
      BeforeIrreflexive(x);
    }
  }

  lemma Smaller(a: set<string>, b: set<string>, x: string)
    requires a <= b && x in b && x !in a
    ensures |a| < |b|
  {
    Cardinality(a, b - {x});
  }

  lemma {:induction false} Cardinality(a: set<string>, b: set<string>)
    requires a <= b
    ensures |a| <= |b|
    decreases |a|
  {
    if a == {} {
    } else {
      var x :| x in a;
      Cardinality(a - {x}, b - {x});
    }
  }
}
