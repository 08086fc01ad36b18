/**
 * The order Python's `sorted` puts strings in: lexicographic comparison
 * character by character, a proper prefix coming first.  `SortedKeys`
 * models `sorted(d)` / `sorted(d.items())` over the distinct keys of a
 * dictionary, and `Ordered` is the one strictly ascending enumeration of
 * a set of strings that every such call produces.
 */
module StringOrder {

  predicate LexLe(a: string, b: string)
    decreases |a|
  {
    if a == [] then true
    else if b == [] then false
    else if a[0] != b[0] then a[0] < b[0]
    else LexLe(a[1..], b[1..])
  }

  predicate LexLt(a: string, b: string)
  {
    LexLe(a, b) && a != b
  }

  lemma {:induction false} LexLeReflexive(a: string)
    ensures LexLe(a, a)
    decreases |a|
  {
    if a != [] {
      LexLeReflexive(a[1..]);
    }
  }

  lemma {:induction false} LexLeTotal(a: string, b: string)
    ensures LexLe(a, b) || LexLe(b, a)
    decreases |a|
  {
    if a != [] && b != [] && a[0] == b[0] {
      LexLeTotal(a[1..], b[1..]);
    }
  }

  lemma {:induction false} LexLeAntisymmetric(a: string, b: string)
    requires LexLe(a, b) && LexLe(b, a)
    ensures a == b
    decreases |a|
  {
    if a != [] && b != [] {
      LexLeAntisymmetric(a[1..], b[1..]);
      assert a == [a[0]] + a[1..] && b == [b[0]] + b[1..];
    }
  }

  lemma {:induction false} LexLeTransitive(a: string, b: string, c: string)
    requires LexLe(a, b) && LexLe(b, c)
    ensures LexLe(a, c)
    decreases |a|
  {
    if a != [] && b != [] && c != [] && a[0] == b[0] && b[0] == c[0] {
      LexLeTransitive(a[1..], b[1..], c[1..]);
    }
  }

  /** Every element strictly below every later one: sorted and without repeats. */
  ghost predicate StrictlyAscending(s: seq<string>)
  {
    forall i, j {:trigger LexLt(s[i], s[j])} :: 0 <= i < j < |s| ==> LexLt(s[i], s[j])
  }

  ghost predicate IsLeast(m: string, s: set<string>)
  {
    m in s && forall y :: y in s ==> LexLe(m, y)
  }

  lemma {:induction false} LeastExists(s: set<string>)
    requires s != {}
    ensures exists m :: IsLeast(m, s)
    decreases |s|
  {
    var x :| x in s;
    if s == {x} {
      LexLeReflexive(x);
      assert IsLeast(x, s);
    } else {
      LeastExists(s - {x});
      var m :| IsLeast(m, s - {x});
      LexLeTotal(m, x);
      if LexLe(m, x) {
        assert IsLeast(m, s);
      } else {
        forall y | y in s
          ensures LexLe(x, y)
        {
          if y == x {
            LexLeReflexive(x);
          } else {
            LexLeTransitive(x, m, y);
          }
        }
        assert IsLeast(x, s);
      }
    }
  }

  lemma LeastUnique(m: string, n: string, s: set<string>)
    requires IsLeast(m, s) && IsLeast(n, s)
    ensures m == n
  {
    LexLeAntisymmetric(m, n);
  }

  ghost function Least(s: set<string>): (m: string)
    requires s != {}
    ensures IsLeast(m, s)
  {
    LeastExists(s);
    var m :| IsLeast(m, s); m
  }

  /** The elements of `s` in ascending order. */
  ghost function Ordered(s: set<string>): (r: seq<string>)
    ensures |r| == |s|
    decreases |s|
  {
    if s == {} then [] else
    var m := Least(s);
    [m] + Ordered(s - {m})
  }

  lemma {:induction false} OrderedEnumerates(s: set<string>)
    ensures StrictlyAscending(Ordered(s))
    ensures forall x :: x in Ordered(s) <==> x in s
    decreases |s|
  {
    if s != {} {
      var m := Least(s);
      var tail := Ordered(s - {m});
      OrderedEnumerates(s - {m});
      var r := Ordered(s);
      assert r == [m] + tail;
      forall x
        ensures x in r <==> x in s
      {
        assert x in r <==> x == m || x in tail;
      }
      forall i, j | 0 <= i < j < |r|
        ensures LexLt(r[i], r[j])
      {
        if i == 0 {
          assert r[j] == tail[j - 1] && tail[j - 1] in tail;
        } else {
          assert r[i] == tail[i - 1] && r[j] == tail[j - 1];
        }
      }
    }
  }

  /** A set has only one strictly ascending enumeration. */
  lemma {:induction false} OrderedUnique(r: seq<string>, s: set<string>)
    requires StrictlyAscending(r)
    requires forall x :: x in r <==> x in s
    ensures r == Ordered(s)
    decreases |r|
  {
    if r == [] {
      assert forall x :: x !in s;
    } else {
      var m := r[0];
      assert m in r;
      forall y | y in s
        ensures LexLe(m, y)
      {
        var k :| 0 <= k < |r| && r[k] == y;
        if k == 0 { LexLeReflexive(m); } else { assert LexLt(r[0], r[k]); }
      }
      LeastUnique(m, Least(s), s);
      var tail := r[1..];
      assert StrictlyAscending(tail) by {
        forall i, j | 0 <= i < j < |tail|
          ensures LexLt(tail[i], tail[j])
        {
          assert LexLt(r[i + 1], r[j + 1]);
        }
      }
      forall x
        ensures x in tail <==> x in s - {m}
      {
        if x in tail {
          var k :| 0 <= k < |tail| && tail[k] == x;
          assert LexLt(r[0], r[k + 1]);
        }
        if x in s - {m} {
          assert x in r;
          assert r == [m] + tail;
        }
      }
      OrderedUnique(tail, s - {m});
      assert r == [m] + tail;
    }
  }

  /** The least element of a non-empty set, found by one pass over it. */
  method Minimum(s: set<string>) returns (m: string)
    requires s != {}
    ensures IsLeast(m, s)
  {
    m :| m in s;
    var todo := s - {m};
    LexLeReflexive(m);
    while todo != {}
      invariant todo <= s && m in s && m !in todo
      invariant forall y :: y in s && y !in todo ==> LexLe(m, y)
      decreases |todo|
    {
      var y :| y in todo;
      LexLeTotal(m, y);
      if !LexLe(m, y) {
        forall z | z in s && z !in todo
          ensures LexLe(y, z)
        {
          LexLeTransitive(y, m, z);
        }
        LexLeReflexive(y);
        m := y;
      }
      todo := todo - {y};
    }
  }

  /** Python's `sorted` over a dictionary's keys (selection by repeated minimum). */
  method SortedKeys(s: set<string>) returns (r: seq<string>)
    ensures StrictlyAscending(r)
    ensures forall x :: x in r <==> x in s
    ensures |r| == |s|
  {
    r := [];
    var rest := s;
    while rest != {}
      invariant rest <= s
      invariant r + Ordered(rest) == Ordered(s)
      decreases |rest|
    {
      var m := Minimum(rest);
      LeastUnique(m, Least(rest), rest);
      r := r + [m];
      rest := rest - {m};
    }
    assert r == Ordered(s);
    OrderedEnumerates(s);
  }
}
