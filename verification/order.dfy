/** The ordering Python's `sorted` applies to strings, and the sorted listing
    of a finite set of strings that the report's type table is built from. */
module Order {

  /** Python's `<` on `str`: lexicographic by code point, a proper prefix
      coming first. */
  predicate Less(a: string, b: string)
    decreases |a|
  {
    if a == [] then b != []
    else if b == [] then false
    else if a[0] != b[0] then a[0] < b[0]
    else Less(a[1..], b[1..])
  }

  lemma {:induction false} LessIrreflexive(a: string)
    ensures !Less(a, a)
    decreases |a|
  {
    if a != [] {
      LessIrreflexive(a[1..]);
    }
  }

  lemma {:induction false} LessAsymmetric(a: string, b: string)
    requires Less(a, b)
    ensures !Less(b, a)
    decreases |a|
  {
    if a != [] && b != [] && a[0] == b[0] {
      LessAsymmetric(a[1..], b[1..]);
    }
  }

  lemma {:induction false} LessTransitive(a: string, b: string, c: string)
    requires Less(a, b) && Less(b, c)
    ensures Less(a, c)
    decreases |a|
  {
    if a != [] && a[0] == b[0] && b[0] == c[0] {
      LessTransitive(a[1..], b[1..], c[1..]);
    }
  }

  lemma {:induction false} LessTotal(a: string, b: string)
    requires a != b
    ensures Less(a, b) || Less(b, a)
    decreases |a|
  {
    if a != [] && b != [] && a[0] == b[0] {
      LessTotal(a[1..], b[1..]);
    }
  }

  /** `m` is the element of `s` that sorts before all the others. */
  predicate IsLeast(m: string, s: set<string>) {
    m in s && forall x :: x in s && x != m ==> Less(m, x)
  }

  /** Every non-empty finite set of strings has a least element. */
  lemma {:induction false} LeastExists(s: set<string>)
    requires s != {}
    ensures exists m :: IsLeast(m, s)
    decreases s
  {
    var x :| x in s;
    if s == {x} {
      assert IsLeast(x, s);
    } else {
      LeastExists(s - {x});
      var m :| IsLeast(m, s - {x});
      LessTotal(x, m);
      if Less(x, m) {
        forall y | y in s && y != x
          ensures Less(x, y)
        {
          if y != m {
            LessTransitive(x, m, y);
          }
        }
        assert IsLeast(x, s);
      } else {
        assert IsLeast(m, s);
      }
    }
  }

  /** A set has at most one least element. */
  lemma LeastUnique(s: set<string>)
    ensures forall a, b :: IsLeast(a, s) && IsLeast(b, s) ==> a == b
  {
    forall a, b | IsLeast(a, s) && IsLeast(b, s)
      ensures a == b
    {
      if a != b {
        LessAsymmetric(a, b);
      }
    }
  }

  /** The element of a non-empty set that sorts first. */
  function Least(s: set<string>): (m: string)
    requires s != {}
    ensures IsLeast(m, s)
  {
    LeastExists(s);
    LeastUnique(s);
    var m :| IsLeast(m, s); m
  }

  /** `sorted(s)`: the elements of `s`, each exactly once, in ascending order. */
  function SortedElements(s: set<string>): (r: seq<string>)
    ensures |r| == |s|
    ensures forall x :: x in s <==> x in r
    ensures forall i, j :: 0 <= i < j < |r| ==> Less(r[i], r[j])
    decreases s
  {
    if s == {} then []
    else
      var m := Least(s);
      [m] + SortedElements(s - {m})
  }

  lemma AllMembersShared(r: seq<string>, q: seq<string>)
    requires forall x :: x in r <==> x in q
    ensures r == [] <==> q == []
  {
    if r != [] {
      assert r[0] in q;
    }
    if q != [] {
      assert q[0] in r;
    }
  }

  /** A strictly ascending sequence is determined by its elements: the
      sorted listing is the only ascending listing of a set. */
  lemma {:induction false} AscendingUnique(r: seq<string>, q: seq<string>)
    requires forall i, j :: 0 <= i < j < |r| ==> Less(r[i], r[j])
    requires forall i, j :: 0 <= i < j < |q| ==> Less(q[i], q[j])
    requires forall x :: x in r <==> x in q
    ensures r == q
    decreases |r|
  {
    if r != [] && q != [] {
      var elems := set x | x in r;
      assert IsLeast(r[0], elems);
      assert IsLeast(q[0], elems);
      LeastUnique(elems);
      assert r == [r[0]] + r[1..] && q == [q[0]] + q[1..];
      forall x
        ensures x in r[1..] <==> x in q[1..]
      {
        if x in r[1..] {
          var k :| 0 <= k < |r[1..]| && r[1..][k] == x;
          assert Less(r[0], r[k + 1]);
          LessIrreflexive(x);
          assert x in q && x != q[0];
          assert x in [q[0]] + q[1..];
        }
        if x in q[1..] {
          var k :| 0 <= k < |q[1..]| && q[1..][k] == x;
          assert Less(q[0], q[k + 1]);
          LessIrreflexive(x);
          assert x in r && x != r[0];
          assert x in [r[0]] + r[1..];
        }
      }
      AscendingUnique(r[1..], q[1..]);
    } else {
      AllMembersShared(r, q);
    }
  }
}
