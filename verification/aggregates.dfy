/**
 * Sums and counts of a quantity `f` over the values a map holds for a set of
 * its keys. Go ranges over maps in no fixed order; these definitions pick an
 * arbitrary key, and the removal lemmas show that the choice does not matter.
 */
module Aggregates {

  /** The sum of `f(m[k])` over the keys `ks`. */
  ghost function SumOn<V>(m: map<string, V>, ks: set<string>, f: V -> real): real
    requires ks <= m.Keys
    decreases ks
  {
    if ks == {} then 0.0 else var k :| k in ks; f(m[k]) + SumOn(m, ks - {k}, f)
  }

  /** The number of keys in `ks` whose `f(m[k])` is positive. */
  ghost function CountPositiveOn<V>(m: map<string, V>, ks: set<string>, f: V -> real): nat
    requires ks <= m.Keys
    decreases ks
  {
    if ks == {} then 0 else var k :| k in ks; (if f(m[k]) > 0.0 then 1 else 0) + CountPositiveOn(m, ks - {k}, f)
  }

  /** Any key may be taken out of a sum first. */
  lemma {:induction false} SumOnRemove<V>(m: map<string, V>, ks: set<string>, f: V -> real, k: string)
    requires ks <= m.Keys && k in ks
    ensures SumOn(m, ks, f) == f(m[k]) + SumOn(m, ks - {k}, f)
    decreases ks
  {
    var j :| j in ks && SumOn(m, ks, f) == f(m[j]) + SumOn(m, ks - {j}, f);
    if j != k {
      SumOnRemove(m, ks - {j}, f, k);
      SumOnRemove(m, ks - {k}, f, j);
      assert ks - {j} - {k} == ks - {k} - {j};
    }
  }

  /** Any key may be taken out of a count first. */
  lemma {:induction false} CountPositiveOnRemove<V>(m: map<string, V>, ks: set<string>, f: V -> real, k: string)
    requires ks <= m.Keys && k in ks
    ensures CountPositiveOn(m, ks, f) == (if f(m[k]) > 0.0 then 1 else 0) + CountPositiveOn(m, ks - {k}, f)
    decreases ks
  {
    var j :| j in ks && CountPositiveOn(m, ks, f) == (if f(m[j]) > 0.0 then 1 else 0) + CountPositiveOn(m, ks - {j}, f);
    if j != k {
      CountPositiveOnRemove(m, ks - {j}, f, k);
      CountPositiveOnRemove(m, ks - {k}, f, j);
      assert ks - {j} - {k} == ks - {k} - {j};
    }
  }

  /** Two sums agree when their quantities agree key by key. */
  lemma {:induction false} SumOnCongruent<V>(m1: map<string, V>, f1: V -> real, m2: map<string, V>, f2: V -> real, ks: set<string>)
    requires ks <= m1.Keys && ks <= m2.Keys
    requires forall k :: k in ks ==> f1(m1[k]) == f2(m2[k])
    ensures SumOn(m1, ks, f1) == SumOn(m2, ks, f2)
    decreases ks
  {
    if ks != {} {
      var k :| k in ks && SumOn(m1, ks, f1) == f1(m1[k]) + SumOn(m1, ks - {k}, f1);
      SumOnRemove(m2, ks, f2, k);
      SumOnCongruent(m1, f1, m2, f2, ks - {k});
    }
  }

  /** A sum of pointwise sums is the sum of the two sums. */
  lemma {:induction false} SumOnAdd<V>(m: map<string, V>, ks: set<string>, f: V -> real, g: V -> real, h: V -> real)
    requires ks <= m.Keys
    requires forall k :: k in ks ==> h(m[k]) == f(m[k]) + g(m[k])
    ensures SumOn(m, ks, h) == SumOn(m, ks, f) + SumOn(m, ks, g)
    decreases ks
  {
    if ks != {} {
      var k :| k in ks && SumOn(m, ks, h) == h(m[k]) + SumOn(m, ks - {k}, h);
      SumOnRemove(m, ks, f, k);
      SumOnRemove(m, ks, g, k);
      SumOnAdd(m, ks - {k}, f, g, h);
    }
  }

  /** A sum of zeros is zero. */
  lemma {:induction false} SumOnZero<V>(m: map<string, V>, ks: set<string>, f: V -> real)
    requires ks <= m.Keys
    requires forall k :: k in ks ==> f(m[k]) == 0.0
    ensures SumOn(m, ks, f) == 0.0
    decreases ks
  {
    if ks != {} {
      var k :| k in ks && SumOn(m, ks, f) == f(m[k]) + SumOn(m, ks - {k}, f);
      SumOnZero(m, ks - {k}, f);
    }
  }

  /** Replacing one summed value changes the sum by the difference of its quantities. */
  lemma SumOnUpdate<V>(m: map<string, V>, ks: set<string>, f: V -> real, k: string, v: V)
    requires ks <= m.Keys && k in ks
    ensures SumOn(m[k := v], ks, f) == SumOn(m, ks, f) - f(m[k]) + f(v)
  {
    SumOnRemove(m, ks, f, k);
    SumOnRemove(m[k := v], ks, f, k);
    SumOnCongruent(m, f, m[k := v], f, ks - {k});
  }

  /** A sum of non-negative quantities is non-negative. */
  lemma {:induction false} SumOnNonNegative<V>(m: map<string, V>, ks: set<string>, f: V -> real)
    requires ks <= m.Keys
    requires forall k :: k in ks ==> f(m[k]) >= 0.0
    ensures SumOn(m, ks, f) >= 0.0
    decreases ks
  {
    if ks != {} {
      var k :| k in ks && SumOn(m, ks, f) == f(m[k]) + SumOn(m, ks - {k}, f);
      SumOnNonNegative(m, ks - {k}, f);
    }
  }

  /** When every quantity is positive, every key is counted. */
  lemma {:induction false} CountPositiveOnAll<V>(m: map<string, V>, ks: set<string>, f: V -> real)
    requires ks <= m.Keys
    requires forall k :: k in ks ==> f(m[k]) > 0.0
    ensures CountPositiveOn(m, ks, f) == |ks|
    decreases ks
  {
    if ks != {} {
      var k :| k in ks && CountPositiveOn(m, ks, f) == 1 + CountPositiveOn(m, ks - {k}, f);
      CountPositiveOnAll(m, ks - {k}, f);
    }
  }
}
