/** The retry loop of HTTP-01 validation, and the run of `OrderModel` steps it stands for. */
module Http01 {
  import opened OrderModel

  /** Attempt `k` finds the key authorization and every earlier one failed in the way that is retried. */
  predicate PassesAt(attempts: seq<Answer>, k: nat)
    requires k < |attempts|
  {
    attempts[k] == AttemptMatched && forall j | 0 <= j < k :: attempts[j] == AttemptFailed
  }

  predicate Passes(left: nat, attempts: seq<Answer>)
    requires left <= |attempts|
  {
    left == 0 || exists k | 0 <= k < left :: PassesAt(attempts, k)
  }

  /**
   `attempts` are the outcomes the attempts would have, in order. With no attempt configured the loop body
   never runs and the validation passes without any fetch.
   */
  method ValidateHttp01(retries: int, attempts: seq<Answer>) returns (validated: bool, made: nat)
    requires retries <= |attempts|
    ensures validated <==> Passes(if retries > 0 then retries else 0, attempts)
    ensures retries <= 0 ==> validated && made == 0
    ensures retries > 0 ==> 0 < made <= retries
    ensures forall j | 0 <= j < made - 1 :: attempts[j] == AttemptFailed
    ensures retries > 0 ==> if validated then attempts[made - 1] == AttemptMatched
                            else attempts[made - 1] != AttemptMatched
                                 && (made == retries || attempts[made - 1] != AttemptFailed)
  {
    made := 0;
    if retries > 0 {
      for attempt := 1 to retries + 1
        invariant made == attempt - 1
        invariant forall j | 0 <= j < attempt - 1 :: attempts[j] == AttemptFailed
        invariant attempt == retries + 1 ==> false
      {
        made := attempt;
        var outcome := attempts[attempt - 1];
        if outcome == AttemptMatched {
          assert PassesAt(attempts, attempt - 1);
          return true, made;
        }
        if outcome != AttemptFailed || attempt == retries {
          return false, made;
        }
      }
    }
    return true, made;
  }

  /** The steps a `Fetching` task takes when the attempts turn out as given. */
  function RunFetch(s: System, i: nat, a: Id, o: Id, left: nat, attempts: seq<Answer>): System
    requires left <= |attempts|
    decreases left
  {
    if left == 0 then FetchStep(s, i, a, o, left, Proceed) else
    var s' := FetchStep(s, i, a, o, left, attempts[0]);
    if s'.tasks[i] == Fetching(a, o, left - 1) then RunFetch(s', i, a, o, left - 1, attempts[1..]) else s'
  }

  /** The single steps of the order model compute exactly the verdict of the loop. */
  lemma {:induction false} RunFetchIsVerdict(s: System, i: nat, a: Id, o: Id, left: nat, attempts: seq<Answer>)
    requires left <= |attempts| && i in s.tasks
    decreases left
    ensures RunFetch(s, i, a, o, left, attempts) == Continue(s, i, Fetched(a, o, Passes(left, attempts)))
  {
    if left == 0 {
      // no attempt is made, and the validation passes
    } else if attempts[0] == AttemptMatched {
      assert PassesAt(attempts, 0);
    } else if attempts[0] == AttemptFailed && left > 1 {
      var s' := FetchStep(s, i, a, o, left, attempts[0]);
      RunFetchIsVerdict(s', i, a, o, left - 1, attempts[1..]);
      assert forall k | 0 <= k < left - 1 :: PassesAt(attempts[1..], k) <==> PassesAt(attempts, k + 1) by {
        forall k | 0 <= k < left - 1 ensures PassesAt(attempts[1..], k) <==> PassesAt(attempts, k + 1) {
          assert PassesAt(attempts, k + 1) ==> forall j | 0 <= j < k :: attempts[1..][j] == attempts[j + 1];
        }
      }
      if Passes(left, attempts) {
        var k :| 0 <= k < left && PassesAt(attempts, k);
        assert k > 0;
        assert PassesAt(attempts[1..], k - 1);
      }
      assert s'.tasks[i := Fetched(a, o, Passes(left, attempts))]
          == s.tasks[i := Fetched(a, o, Passes(left, attempts))];
    } else {
      assert forall k | 0 < k < left :: PassesAt(attempts, k) ==> attempts[0] == AttemptFailed;
    }
  }
}
