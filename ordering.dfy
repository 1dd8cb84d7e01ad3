/** Ascending orders used by the document service: database ids (`order by d.id asc`) and user ids
    (`String.compareTo`, which compares the first differing character and otherwise puts the
    shorter string first). A finite set of user ids is listed in ascending order by repeatedly
    taking its least element. */
module Ordering {

  // ---------------------------------------------------------------- integers

  predicate StrictlyIncreasing(s: seq<int>) {
    forall i, j :: 0 <= i < j < |s| ==> s[i] < s[j]
  }

  // ---------------------------------------------------------------- strings

  /** `a.compareTo(b) < 0`. */
  predicate StringLess(a: string, b: string)
    decreases |a|
  {
    if a == [] then b != []
    else if b == [] then false
    else if a[0] != b[0] then a[0] < b[0]
    else StringLess(a[1..], b[1..])
  }

  lemma {:induction false} StringLessIrreflexive(a: string)
    ensures !StringLess(a, a)
    decreases |a|
  {
    if a != [] {
      StringLessIrreflexive(a[1..]);
    }
  }

  lemma {:induction false} StringLessTotal(a: string, b: string)
    ensures a == b || StringLess(a, b) || StringLess(b, a)
    decreases |a|
  {
    if a != [] && b != [] && a[0] == b[0] {
      StringLessTotal(a[1..], b[1..]);
      if a[1..] == b[1..] {
        assert a == [a[0]] + a[1..] && b == [b[0]] + b[1..];
      }
    }
  }

  lemma {:induction false} StringLessTransitive(a: string, b: string, c: string)
    requires StringLess(a, b) && StringLess(b, c)
    ensures StringLess(a, c)
    decreases |a|
  {
    if a != [] && a[0] == b[0] && b[0] == c[0] {
      StringLessTransitive(a[1..], b[1..], c[1..]);
    }
  }

  lemma StringLessAsymmetric(a: string, b: string)
    requires StringLess(a, b)
    ensures !StringLess(b, a)
  {
    if StringLess(b, a) {
      StringLessTransitive(a, b, a);
      StringLessIrreflexive(a);
    }
  }

  predicate StrictlyAscending(s: seq<string>) {
    forall i, j :: 0 <= i < j < |s| ==> StringLess(s[i], s[j])
  }

  /** `m` is the least element of `s` under `compareTo`. */
  predicate IsLeast(m: string, s: set<string>) {
    m in s && forall x :: x in s && x != m ==> StringLess(m, x)
  }

  lemma {:induction false} LeastStringExists(s: set<string>)
    requires s != {}
    ensures exists m :: IsLeast(m, s)
    decreases |s|
  {
    var y :| y in s;
    if s == {y} {
      assert IsLeast(y, s);
    } else {
      LeastStringExists(s - {y});
      var m :| IsLeast(m, s - {y});
      LeastOfInsert(s, y, m);
    }
  }

  /** Adding `y` back: the least element is `y` or the least element of the rest. */
  lemma LeastOfInsert(s: set<string>, y: string, m: string)
    requires y in s && IsLeast(m, s - {y})
    ensures IsLeast(y, s) || IsLeast(m, s)
  {
    StringLessTotal(y, m);
    if StringLess(y, m) {
      forall x | x in s && x != y
        ensures StringLess(y, x)
      {
        if x != m {
          StringLessTransitive(y, m, x);
        }
      }
    } else {
      forall x | x in s && x != m
        ensures StringLess(m, x)
      {
        if x != y {
          assert x in s - {y};
        }
      }
    }
  }

  lemma StringLessAsymmetricAll()
    ensures forall a, b :: StringLess(a, b) ==> !StringLess(b, a)
  {
    forall a, b | StringLess(a, b)
      ensures !StringLess(b, a)
    {
      StringLessAsymmetric(a, b);
    }
  }

  function LeastString(s: set<string>): (m: string)
    requires s != {}
    ensures m in s && forall x :: x in s && x != m ==> StringLess(m, x)
  {
    LeastStringExists(s);
    StringLessAsymmetricAll();
    var m :| IsLeast(m, s);
    m
  }

  /** The elements of `s` in ascending `compareTo` order, each once. */
  function SortedStrings(s: set<string>): (r: seq<string>)
    ensures |r| == |s|
    ensures forall x :: x in r <==> x in s
    ensures StrictlyAscending(r)
    decreases |s|
  {
    if s == {} then []
    else
      var m := LeastString(s);
      var rest := SortedStrings(s - {m});
      [m] + rest
  }

  /** A strictly ascending listing of a set is unique: any two agree. */
  lemma {:induction false} AscendingListingUnique(r1: seq<string>, r2: seq<string>)
    requires StrictlyAscending(r1) && StrictlyAscending(r2)
    requires forall x :: x in r1 <==> x in r2
    ensures r1 == r2
    decreases |r1|
  {
    assert r1 != [] ==> r1[0] in r2;
    assert r2 != [] ==> r2[0] in r1;
    if r1 != [] && r2 != [] {
      assert r1[0] in r2 && r2[0] in r1;
      var k1 :| 0 <= k1 < |r2| && r2[k1] == r1[0];
      var k2 :| 0 <= k2 < |r1| && r1[k2] == r2[0];
      if k1 != 0 && k2 != 0 {
        // r2[0] < r2[k1] == r1[0] < r1[k2] == r2[0]
        StringLessTransitive(r2[0], r1[0], r2[0]);
        StringLessIrreflexive(r2[0]);
      }
      if k1 == 0 || k2 == 0 {
        assert r1[0] == r2[0];
      }
      forall x | x in r1[1..]
        ensures x in r2[1..]
      {
        var i :| 1 <= i < |r1| && r1[i] == x;
        assert x in r2;
        var j :| 0 <= j < |r2| && r2[j] == x;
        if j == 0 {
          StringLessIrreflexive(x);
        }
        assert r2[1..][j - 1] == x;
      }
      forall x | x in r2[1..]
        ensures x in r1[1..]
      {
        var i :| 1 <= i < |r2| && r2[i] == x;
        assert x in r1;
        var j :| 0 <= j < |r1| && r1[j] == x;
        if j == 0 {
          StringLessIrreflexive(x);
        }
        assert r1[1..][j - 1] == x;
      }
      AscendingListingUnique(r1[1..], r2[1..]);
      assert r1 == [r1[0]] + r1[1..] && r2 == [r2[0]] + r2[1..];
    }
  }
}
