/** Sizes of finite sets. */
module Cardinality {
  lemma {:induction false} Subset<T>(a: set<T>, b: set<T>)
    requires a <= b
    ensures |a| <= |b|
  {
    assert b == a + (b - a);
  }

  lemma {:induction false} Union<T>(a: set<T>, b: set<T>)
    ensures |a + b| <= |a| + |b|
  {
    assert a + b == a + (b - a);
    Subset(b - a, b);
  }

  lemma {:induction false} Parts<T>(a: set<T>, b: set<T>)
    ensures |a| == |a - b| + |a * b|
  {
    assert a == (a - b) + a * b;
  }

  /** A set whose members own distinct members of `target` is no larger than `target`. */
  lemma {:induction false} Injection<A, B>(names: set<A>, owner: map<A, B>, target: set<B>)
    requires names <= owner.Keys
    requires forall n <- names :: owner[n] in target
    requires forall m, n | m in names && n in names && owner[m] == owner[n] :: m == n
    ensures |names| <= |target|
  {
    if names != {} {
      var n :| n in names;
      Injection(names - {n}, owner, target - {owner[n]});
    }
  }
}
