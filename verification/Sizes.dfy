/** Cardinalities of finite sets, and what lies outside of them. */
module Sizes {
  lemma SubsetSize<T>(a: set<T>, b: set<T>)
    requires a <= b
    ensures |a| <= |b|
  {
    assert b == a + (b - a);
  }

  lemma OneMore<T>(s: set<T>, x: T)
    ensures |s + {x}| == if x in s then |s| else |s| + 1
  {
    assert x in s ==> s + {x} == s;
  }

  lemma {:induction false} IntervalSize(s: set<nat>, lo: nat, n: nat)
    requires forall i | i in s :: lo <= i < lo + n
    ensures |s| <= n
  {
    if n == 0 {
      assert s == {};
    } else {
      IntervalSize(s - {lo + n - 1}, lo, n - 1);
      SubsetSize(s, (s - {lo + n - 1}) + {lo + n - 1});
    }
  }

  lemma {:induction false} LongerThanAll(ids: set<string>) returns (n: nat)
    ensures forall id | id in ids :: |id| < n
    decreases |ids|
  {
    n := 0;
    if ids != {} {
      var id :| id in ids;
      n := LongerThanAll(ids - {id});
      n := n + |id| + 1;
    }
  }

  /** There is always a string that is not in use yet. */
  lemma Unused(ids: set<string>) returns (id: string)
    ensures id !in ids
  {
    var n := LongerThanAll(ids);
    id := seq(n, _ => 'x');
  }

  lemma {:induction false} UnusedNumber(ids: set<nat>) returns (n: nat)
    ensures forall id | id in ids :: id < n
    decreases |ids|
  {
    n := 0;
    if ids != {} {
      var some :| some in ids;
      var bound := UnusedNumber(ids - {some});
      n := bound + some + 1;
      forall id | id in ids ensures id < n {
        assert id == some || id in ids - {some};
      }
    }
  }
}
