/**
 * Python's `sum(d.values())` over a dictionary from strings to amounts,
 * and running totals over a list of its keys.
 * `SumOfValues` is the mathematical sum (independent of iteration order,
 * since amounts are exact reals here); `Sum` computes it by a loop.
 */
module Sums {
  import opened StringOrder

  ghost function Pick(s: set<string>): (x: string)
    requires s != {}
    ensures x in s
  {
    var x :| x in s; x
  }

  lemma RemoveShrinks(m: map<string, real>, k: string)
    requires k in m
    ensures (m - {k}).Keys == m.Keys - {k}
    ensures |m - {k}| == |m| - 1
  {
    assert (m - {k}).Keys == m.Keys - {k};
    assert |m.Keys - {k}| == |m.Keys| - 1;
  }

  ghost function SumOfValues(m: map<string, real>): real
    decreases |m|
  {
    if m == map[] then 0.0
    else
      var k := Pick(m.Keys);
      RemoveShrinks(m, k);
      m[k] + SumOfValues(m - {k})
  }

  /** Any entry may be taken out first: the sum does not depend on the order. */
  lemma {:induction false} SumOfValuesRemove(m: map<string, real>, k: string)
    requires k in m
    ensures SumOfValues(m) == m[k] + SumOfValues(m - {k})
    decreases |m|
  {
    var p := Pick(m.Keys);
    RemoveShrinks(m, p);
    if p != k {
      RemoveShrinks(m, k);
      SumOfValuesRemove(m - {p}, k);
      SumOfValuesRemove(m - {k}, p);
      assert m - {p} - {k} == m - {k} - {p};
    }
  }

  /** Overwriting or adding one entry changes the sum by the difference. */
  lemma SumOfValuesUpdate(m: map<string, real>, k: string, v: real)
    ensures SumOfValues(m[k := v]) == SumOfValues(m) - (if k in m then m[k] else 0.0) + v
  {
    SumOfValuesRemove(m[k := v], k);
    assert m[k := v] - {k} == m - {k};
    if k in m {
      SumOfValuesRemove(m, k);
    } else {
      assert m - {k} == m;
    }
  }

  /** Python's built-in `sum` over the values of a dictionary. */
  method Sum(m: map<string, real>) returns (total: real)
    ensures total == SumOfValues(m)
  {
    total := 0.0;
    var rest := m;
    while rest != map[]
      invariant total + SumOfValues(rest) == SumOfValues(m)
      decreases |rest|
    {
      var k :| k in rest;
      SumOfValuesRemove(rest, k);
      RemoveShrinks(rest, k);
      total := total + rest[k];
      rest := rest - {k};
    }
  }

  ghost predicate AllIn(ks: seq<string>, m: map<string, real>)
  {
    forall k :: k in ks ==> k in m
  }

  /** The running total after adding up the amounts of `ks` one by one. */
  ghost function SumOver(ks: seq<string>, m: map<string, real>): real
    requires AllIn(ks, m)
  {
    if ks == [] then 0.0 else SumOver(ks[..|ks| - 1], m) + m[ks[|ks| - 1]]
  }

  /** Adding up the amounts of an enumeration without repeats gives the sum of the map. */
  lemma {:induction false} SumOverAll(ks: seq<string>, m: map<string, real>)
    requires StrictlyAscending(ks)
    requires forall k :: k in ks <==> k in m
    ensures SumOver(ks, m) == SumOfValues(m)
    decreases |ks|
  {
    if ks == [] {
      assert m == map[];
    } else {
      var init, c := ks[..|ks| - 1], ks[|ks| - 1];
      assert ks == init + [c];
      var smaller := m - {c};
      assert StrictlyAscending(init) by {
        forall i, j | 0 <= i < j < |init| ensures LexLt(init[i], init[j]) {
          assert LexLt(ks[i], ks[j]);
        }
      }
      forall k
        ensures k in init <==> k in smaller
      {
        if k in init {
          var i :| 0 <= i < |init| && init[i] == k;
          assert LexLt(ks[i], ks[|ks| - 1]);
        }
      }
      SumOverAll(init, smaller);
      SumOverSameValues(init, m, smaller);
      SumOfValuesRemove(m, c);
    }
  }

  lemma {:induction false} SumOverSameValues(ks: seq<string>, m: map<string, real>, n: map<string, real>)
    requires AllIn(ks, m) && AllIn(ks, n)
    requires forall k :: k in ks ==> m[k] == n[k]
    ensures SumOver(ks, m) == SumOver(ks, n)
    decreases |ks|
  {
    if ks != [] {
      SumOverSameValues(ks[..|ks| - 1], m, n);
    }
  }
}
