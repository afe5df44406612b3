/** The sliding-window order quota, with the check and the commit of a request as separate steps. */
module OrderQuota {
  import opened Sizes

  /** Creation times of an account's committed orders, and of those between their check and their commit. */
  datatype State = State(committed: seq<int>, pending: map<nat, int>)

  datatype Event =
    | Check(id: nat, now: int, created: int)   // the order is stamped at or after the time of the count
    | Commit(id: nat)
    | Abandon(id: nat)                         // the request fails, or the process dies

  function Within(times: seq<int>, lo: int, hi: int): nat {
    if times == [] then 0
    else Within(times[..|times| - 1], lo, hi) + (if lo <= times[|times| - 1] <= hi then 1 else 0)
  }

  function Since(times: seq<int>, lo: int): nat {
    if times == [] then 0 else Since(times[..|times| - 1], lo) + (if lo <= times[|times| - 1] then 1 else 0)
  }

  function PendingWithin(pending: map<nat, int>, lo: int, hi: int): set<nat> {
    set id | id in pending && lo <= pending[id] <= hi
  }

  predicate Admits(s: State, limit: int, window: nat, now: int) {
    limit <= 0 || Since(s.committed, now - window) < limit
  }

  predicate Enabled(s: State, e: Event) {
    match e
    case Check(id, now, created) => id !in s.pending && now <= created
    case Commit(id) => id in s.pending
    case Abandon(id) => id in s.pending
  }

  function Apply(s: State, e: Event, limit: int, window: nat): State
    requires Enabled(s, e)
  {
    match e
    case Check(id, now, created) =>
      if Admits(s, limit, window, now) then s.(pending := s.pending[id := created]) else s
    case Commit(id) => State(s.committed + [s.pending[id]], s.pending - {id})
    case Abandon(id) => s.(pending := s.pending - {id})
  }

  ghost predicate Legal(run: seq<Event>, limit: int, window: nat)
    decreases |run|, 0
  {
    run == [] || (Legal(run[..|run| - 1], limit, window)
        && Enabled(After(run[..|run| - 1], limit, window), run[|run| - 1]))
  }

  ghost function After(run: seq<Event>, limit: int, window: nat): State
    requires Legal(run, limit, window)
    decreases |run|, 1
  {
    if run == [] then State([], map[]) else Apply(After(run[..|run| - 1], limit, window), run[|run| - 1], limit, window)
  }

  /** At most `k` requests of the account were ever between their check and their commit. */
  ghost predicate AtMostPending(run: seq<Event>, limit: int, window: nat, k: nat)
    requires Legal(run, limit, window)
    decreases |run|
  {
    |After(run, limit, window).pending| <= k && (run != [] ==> AtMostPending(run[..|run| - 1], limit, window, k))
  }

  lemma {:induction false} WithinSince(times: seq<int>, lo: int, hi: int, from: int)
    requires from <= lo
    ensures Within(times, lo, hi) <= Since(times, from)
  {
    if times != [] {
      WithinSince(times[..|times| - 1], lo, hi, from);
    }
  }

  /** The counts are cardinalities. */
  lemma {:induction false} SinceCounts(times: seq<int>, lo: int)
    ensures Since(times, lo) == |set i | 0 <= i < |times| && times[i] >= lo|
  {
    if times != [] {
      var n, before := |times| - 1, times[..|times| - 1];
      SinceCounts(before, lo);
      var since := set i | 0 <= i < n && before[i] >= lo;
      assert (set i | 0 <= i < |times| && times[i] >= lo) == if times[n] >= lo then since + {n} else since;
    }
  }

  lemma {:induction false} WithinCounts(times: seq<int>, lo: int, hi: int)
    ensures Within(times, lo, hi) == |set i | 0 <= i < |times| && lo <= times[i] <= hi|
  {
    if times != [] {
      var n, before := |times| - 1, times[..|times| - 1];
      WithinCounts(before, lo, hi);
      var within := set i | 0 <= i < n && lo <= before[i] <= hi;
      assert (set i | 0 <= i < |times| && lo <= times[i] <= hi)
          == if lo <= times[n] <= hi then within + {n} else within;
    }
  }

  /** A request is admitted exactly while fewer than a positive limit of the account's orders are in its window. */
  lemma AdmitsExactly(s: State, limit: int, window: nat, now: int)
    requires limit > 0
    ensures Admits(s, limit, window, now)
            <==> |set i | 0 <= i < |s.committed| && now - s.committed[i] <= window| < limit
  {
    SinceCounts(s.committed, now - window);
    assert (set i | 0 <= i < |s.committed| && now - s.committed[i] <= window)
        == (set i | 0 <= i < |s.committed| && s.committed[i] >= now - window);
  }

  /** The count every window is bounded by includes the orders that are about to be committed. */
  ghost predicate WindowOk(s: State, limit: int, k: nat, lo: int, hi: int) {
    Within(s.committed, lo, hi) + |PendingWithin(s.pending, lo, hi)| <= limit + k - 1
  }

  lemma StepWindow(s: State, e: Event, limit: int, window: nat, k: nat, lo: int)
    requires limit > 0 && Enabled(s, e) && WindowOk(s, limit, k, lo, lo + window)
    requires |Apply(s, e, limit, window).pending| <= k
    ensures WindowOk(Apply(s, e, limit, window), limit, k, lo, lo + window)
  {
    var s', hi := Apply(s, e, limit, window), lo + window;
    match e
    case Check(id, now, created) =>
      if s' != s && lo <= created <= hi {
        // the window ends after the count was taken, so the count saw every committed order in it
        WithinSince(s.committed, lo, hi, now - window);
        SubsetSize(PendingWithin(s'.pending, lo, hi), s'.pending.Keys);
        assert |s'.pending.Keys| == |s'.pending|;
      } else {
        assert PendingWithin(s'.pending, lo, hi) == PendingWithin(s.pending, lo, hi);
      }
    case Commit(id) => CommitWindow(s, id, limit, k, lo, hi);
    case Abandon(id) => SubsetSize(PendingWithin(s'.pending, lo, hi), PendingWithin(s.pending, lo, hi));
  }

  lemma CommitWindow(s: State, id: nat, limit: int, k: nat, lo: int, hi: int)
    requires id in s.pending && WindowOk(s, limit, k, lo, hi)
    ensures WindowOk(State(s.committed + [s.pending[id]], s.pending - {id}), limit, k, lo, hi)
  {
    assert (s.committed + [s.pending[id]])[..|s.committed|] == s.committed;
    assert PendingWithin(s.pending - {id}, lo, hi) == PendingWithin(s.pending, lo, hi) - {id};
  }

  lemma {:induction false} RunWindow(run: seq<Event>, limit: int, window: nat, k: nat, lo: int)
    requires limit > 0 && Legal(run, limit, window) && AtMostPending(run, limit, window, k)
    ensures WindowOk(After(run, limit, window), limit, k, lo, lo + window)
    decreases |run|
  {
    if run == [] {
      assert PendingWithin(map[], lo, lo + window) == {};
    } else {
      RunWindow(run[..|run| - 1], limit, window, k, lo);
      StepWindow(After(run[..|run| - 1], limit, window), run[|run| - 1], limit, window, k, lo);
    }
  }

  /**
   With a limit and at most `k` concurrent requests of the account, no closed window of `window` seconds, wherever
   it begins, ever holds more than limit + k - 1 of its orders; sequential requests never exceed the limit.
   */
  lemma QuotaHolds(run: seq<Event>, limit: int, window: nat, k: nat, lo: int)
    requires limit > 0 && Legal(run, limit, window) && AtMostPending(run, limit, window, k)
    ensures Within(After(run, limit, window).committed, lo, lo + window) <= limit + k - 1
    ensures k == 1 ==> Within(After(run, limit, window).committed, lo, lo + window) <= limit
  {
    RunWindow(run, limit, window, k, lo);
  }

  lemma Extend(run: seq<Event>, e: Event, limit: int, window: nat, k: nat)
    requires Legal(run, limit, window) && AtMostPending(run, limit, window, k) && Enabled(After(run, limit, window), e)
    requires |Apply(After(run, limit, window), e, limit, window).pending| <= k
    ensures Legal(run + [e], limit, window) && AtMostPending(run + [e], limit, window, k)
    ensures After(run + [e], limit, window) == Apply(After(run, limit, window), e, limit, window)
  {
    assert (run + [e])[..|run|] == run;
  }

  lemma {:induction false} CountZeros(times: seq<int>, window: nat)
    requires forall i | 0 <= i < |times| :: times[i] == 0
    ensures Since(times, 0 - window) == |times| && Within(times, 0, window) == |times|
  {
    if times != [] {
      CountZeros(times[..|times| - 1], window);
    }
  }

  /** The run leaves `n` orders committed and requests 0, ..., p - 1 pending, all of them made at time 0. */
  ghost predicate Filled(run: seq<Event>, limit: int, window: nat, k: nat, n: nat, p: nat) {
    && Legal(run, limit, window) && AtMostPending(run, limit, window, k)
    && var s := After(run, limit, window);
    && |s.committed| == n && (forall i | 0 <= i < n :: s.committed[i] == 0)
    && |s.pending| == p && (forall id | id in s.pending :: id < p && s.pending[id] == 0)
  }

  lemma Admit(run: seq<Event>, limit: int, window: nat, k: nat, n: nat, p: nat)
    requires Filled(run, limit, window, k, n, p) && p < k && n < limit
    ensures Filled(run + [Check(p, 0, 0)], limit, window, k, n, p + 1)
  {
    var s := After(run, limit, window);
    CountZeros(s.committed, window);
    assert Apply(s, Check(p, 0, 0), limit, window) == s.(pending := s.pending[p := 0]);
    Extend(run, Check(p, 0, 0), limit, window, k);
  }

  lemma CommitLast(run: seq<Event>, limit: int, window: nat, k: nat, n: nat, p: nat)
    requires Filled(run, limit, window, k, n, p) && p > 0
    ensures Filled(run + [Commit(p - 1)], limit, window, k, n + 1, p - 1)
  {
    var s := After(run, limit, window);
    LastIsPending(s.pending, p);
    assert s.pending == (s.pending - {p - 1})[p - 1 := 0];
    Extend(run, Commit(p - 1), limit, window, k);
  }

  lemma LastIsPending(pending: map<nat, int>, p: nat)
    requires |pending| == p > 0 && forall id | id in pending :: id < p
    ensures p - 1 in pending
  {
    assert |pending.Keys| == |pending|;
    if p - 1 !in pending {
      IntervalSize(pending.Keys, 0, p - 1);
    }
  }

  /** The bound is exact: for every limit and every degree of concurrency some run fills a window to it. */
  lemma QuotaIsReached(limit: int, window: nat, k: nat) returns (run: seq<Event>)
    requires limit > 0 && k > 0
    ensures Legal(run, limit, window) && AtMostPending(run, limit, window, k)
    ensures Within(After(run, limit, window).committed, 0, window) == limit + k - 1
  {
    run := [];
    var n, p := 0, 0;
    while n < limit - 1
      invariant n <= limit - 1 && Filled(run, limit, window, k, n, 0)
    {
      Admit(run, limit, window, k, n, 0);
      CommitLast(run + [Check(0, 0, 0)], limit, window, k, n, 1);
      run := run + [Check(0, 0, 0)] + [Commit(0)];
      n := n + 1;
    }
    while p < k
      invariant p <= k && Filled(run, limit, window, k, n, p)
    {
      Admit(run, limit, window, k, n, p);
      run := run + [Check(p, 0, 0)];
      p := p + 1;
    }
    while p > 0
      invariant n + p == limit + k - 1 && Filled(run, limit, window, k, n, p)
    {
      CommitLast(run, limit, window, k, n, p);
      run := run + [Commit(p - 1)];
      n, p := n + 1, p - 1;
    }
    CountZeros(After(run, limit, window).committed, window);
  }

  /** _check_order_rate_limit: counts the account's recent orders among all rows. */
  method CheckOrderRateLimit(rows: seq<(string, int)>, account: string, limit: int, window: nat, now: int)
    returns (admitted: bool)
    ensures admitted <==> limit <= 0
                          || |set i | 0 <= i < |rows| && rows[i].0 == account && now - rows[i].1 <= window| < limit
    ensures admitted <==> Admits(State(TimesOf(rows, account), map[]), limit, window, now)
  {
    if limit <= 0 { return true; }
    var windowStart := now - window;
    var count := 0;
    for i := 0 to |rows|
      invariant count == Since(TimesOf(rows[..i], account), windowStart)
      invariant count == |set j | 0 <= j < i && rows[j].0 == account && now - rows[j].1 <= window|
    {
      OneMoreRow(rows, i, account, windowStart);
      OneMoreCounted(rows, i, account, window, now);
      if rows[i].0 == account && rows[i].1 >= windowStart {
        count := count + 1;
      }
    }
    assert rows[..|rows|] == rows;
    return count < limit;
  }

  lemma OneMoreCounted(rows: seq<(string, int)>, i: nat, account: string, window: nat, now: int)
    requires i < |rows|
    ensures |set j | 0 <= j < i + 1 && rows[j].0 == account && now - rows[j].1 <= window|
         == |set j | 0 <= j < i && rows[j].0 == account && now - rows[j].1 <= window|
            + if rows[i].0 == account && now - rows[i].1 <= window then 1 else 0
  {
    var counted := set j | 0 <= j < i && rows[j].0 == account && now - rows[j].1 <= window;
    assert (set j | 0 <= j < i + 1 && rows[j].0 == account && now - rows[j].1 <= window)
        == if rows[i].0 == account && now - rows[i].1 <= window then counted + {i} else counted;
  }

  lemma OneMoreRow(rows: seq<(string, int)>, i: nat, account: string, lo: int)
    requires i < |rows|
    ensures Since(TimesOf(rows[..i + 1], account), lo)
         == Since(TimesOf(rows[..i], account), lo) + (if rows[i].0 == account && rows[i].1 >= lo then 1 else 0)
  {
    assert rows[..i + 1][..i] == rows[..i];
    var times := TimesOf(rows[..i], account);
    assert TimesOf(rows[..i + 1], account) == times + (if rows[i].0 == account then [rows[i].1] else []);
    if rows[i].0 == account {
      assert (times + [rows[i].1])[..|times|] == times;
    } else {
      assert times + [] == times;
    }
  }

  function TimesOf(rows: seq<(string, int)>, account: string): seq<int> {
    if rows == [] then []
    else TimesOf(rows[..|rows| - 1], account) + (if rows[|rows| - 1].0 == account then [rows[|rows| - 1].1] else [])
  }
}
