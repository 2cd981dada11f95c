/**
 Removing duplicates while keeping the first of each key, as `HashSet::insert` in a filter does.
*/
module Dedup {
  /** The elements whose key is new; `seen` holds the keys that are not. */
  function Firsts<T, K(==)>(todo: seq<T>, key: T -> K, seen: set<K>): seq<T> {
    if todo == [] then []
    else if key(todo[0]) in seen then Firsts(todo[1..], key, seen)
    else [todo[0]] + Firsts(todo[1..], key, seen + {key(todo[0])})
  }

  ghost predicate DistinctKeys<T, K>(s: seq<T>, key: T -> K) {
    forall i, j | 0 <= i < j < |s| :: key(s[i]) != key(s[j])
  }

  ghost predicate NewKeys<T, K>(s: seq<T>, key: T -> K, seen: set<K>) {
    forall i | 0 <= i < |s| :: key(s[i]) !in seen
  }

  ghost predicate HasKey<T, K>(s: seq<T>, key: T -> K, k: K) {
    exists i | 0 <= i < |s| :: key(s[i]) == k
  }

  /** `at` picks elements of `from` in their order. */
  ghost predicate Picks<T>(picked: seq<T>, from: seq<T>, at: seq<nat>) {
    && |picked| == |at|
    && (forall i | 0 <= i < |at| :: at[i] < |from| && picked[i] == from[at[i]])
    && (forall i, j | 0 <= i < j < |at| :: at[i] < at[j])
  }

  lemma {:induction false} FirstsAreDistinct<T, K>(todo: seq<T>, key: T -> K, seen: set<K>)
    ensures var r := Firsts(todo, key, seen);
      DistinctKeys(r, key) && NewKeys(r, key, seen)
  {
    if todo != [] {
      var k := key(todo[0]);
      if k in seen {
        FirstsAreDistinct(todo[1..], key, seen);
      } else {
        FirstsAreDistinct(todo[1..], key, seen + {k});
        var rest := Firsts(todo[1..], key, seen + {k});
        assert forall i | 0 <= i < |rest| :: key(rest[i]) !in seen + {k};
      }
    }
  }

  lemma {:induction false} FirstsKeepKeys<T, K>(todo: seq<T>, key: T -> K, seen: set<K>, k: K)
    requires HasKey(todo, key, k) && k !in seen
    ensures HasKey(Firsts(todo, key, seen), key, k)
  {
    var i :| 0 <= i < |todo| && key(todo[i]) == k;
    var r := Firsts(todo, key, seen);
    if key(todo[0]) == k {
      assert key(r[0]) == k;
    } else {
      assert key(todo[1..][i - 1]) == k;
      var more := if key(todo[0]) in seen then seen else seen + {key(todo[0])};
      FirstsKeepKeys(todo[1..], key, more, k);
      var rest := Firsts(todo[1..], key, more);
      var j :| 0 <= j < |rest| && key(rest[j]) == k;
      assert key(r[if rest == r then j else j + 1]) == k;
    }
  }

  lemma {:induction false} FirstsPick<T, K>(todo: seq<T>, key: T -> K, seen: set<K>) returns (at: seq<nat>)
    ensures Picks(Firsts(todo, key, seen), todo, at)
    ensures todo != [] && key(todo[0]) !in seen ==> at != [] && at[0] == 0
  {
    at := [];
    if todo != [] {
      if key(todo[0]) in seen {
        var rest := FirstsPick(todo[1..], key, seen);
        PickLater(Firsts(todo, key, seen), todo, rest);
        at := Shifted(rest, false);
      } else {
        var rest := FirstsPick(todo[1..], key, seen + {key(todo[0])});
        PickFirst(Firsts(todo[1..], key, seen + {key(todo[0])}), todo, rest);
        at := Shifted(rest, true);
      }
    }
  }

  lemma {:induction false} PickLater<T>(picked: seq<T>, from: seq<T>, at: seq<nat>)
    requires from != [] && Picks(picked, from[1..], at)
    ensures Picks(picked, from, Shifted(at, false))
  {
  }

  lemma {:induction false} PickFirst<T>(picked: seq<T>, from: seq<T>, at: seq<nat>)
    requires from != [] && Picks(picked, from[1..], at)
    ensures Picks([from[0]] + picked, from, Shifted(at, true))
  {
  }

  function Shifted(at: seq<nat>, first: bool): (r: seq<nat>)
    ensures var k := if first then 1 else 0;
      && |r| == |at| + k
      && (first ==> r[0] == 0)
      && forall i | k <= i < |r| :: r[i] == at[i - k] + 1
  {
    (if first then [0] else []) + seq(|at|, i requires 0 <= i < |at| => at[i] + 1)
  }

  /** Nothing is removed when nothing repeats. */
  lemma {:induction false} FirstsOfDistinct<T, K>(todo: seq<T>, key: T -> K, seen: set<K>)
    requires DistinctKeys(todo, key) && NewKeys(todo, key, seen)
    ensures Firsts(todo, key, seen) == todo
  {
    if todo != [] {
      forall i | 0 <= i < |todo[1..]| ensures key(todo[1..][i]) !in seen + {key(todo[0])} {
        assert todo[1..][i] == todo[i + 1];
      }
      FirstsOfDistinct(todo[1..], key, seen + {key(todo[0])});
    }
  }

  /** The last element stays last when its key occurs nowhere before. */
  lemma {:induction false} LastStaysLast<T, K>(todo: seq<T>, key: T -> K, seen: set<K>)
    requires todo != [] && key(todo[|todo| - 1]) !in seen
    requires forall i | 0 <= i < |todo| - 1 :: key(todo[i]) != key(todo[|todo| - 1])
    ensures var r := Firsts(todo, key, seen); r != [] && r[|r| - 1] == todo[|todo| - 1]
  {
    if |todo| > 1 {
      assert forall i | 0 <= i < |todo[1..]| :: todo[1..][i] == todo[i + 1];
      LastStaysLast(todo[1..], key, if key(todo[0]) in seen then seen else seen + {key(todo[0])});
    }
  }
}
