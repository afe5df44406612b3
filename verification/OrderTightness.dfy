/** The bound of `IssuanceBound` is exact: any number of validators can buy as many issuances. */
module OrderTightness {
  import opened OrderModel
  import opened OrderInvariants
  import opened OrderIssuance
  import opened OrderPhases
  import opened OrderDuplicates
  import opened Sizes

  /** Some run, sealed as in `Leads`, leads to `s` with only validators in `ids` started and `d` issuances or more. */
  ghost predicate Reaches(retries: int, s: System, o: Id, ids: set<nat>, d: nat) {
    forall key | Unseals(key) :: exists run :: ReachesBy(retries, run, s, o, ids, d)
  }

  lemma Reached(retries: int, s: System, o: Id, ids: set<nat>, d: nat) returns (run: seq<Event>)
    requires Reaches(retries, s, o, ids, d)
    ensures ReachesBy(retries, run, s, o, ids, d)
  {
    assert Unseals(0);
    run :| ReachesBy(retries, run, s, o, ids, d);
  }

  ghost predicate ReachesBy(retries: int, run: seq<Event>, s: System, o: Id, ids: set<nat>, d: nat) {
    Legal(retries, run) && After(retries, run) == s && Within(Count(retries, run, o), ids, d)
  }

  ghost predicate Within(t: Tally, ids: set<nat>, d: nat) {
    t.launched.Keys <= ids && t.dispatches >= d
  }

  lemma LaunchesNothing(t: Tally, s: System, e: Event, o: Id, ids: set<nat>, d: nat)
    requires Within(t, ids, d) && Enabled(s, e) && !e.Acknowledge?
    ensures Within(Observe(t, s, e, Apply(s, e), o), ids, d)
  {
    assert Launches(s, Apply(s, e), o) == map[];
  }

  lemma Onward(retries: int, s: System, o: Id, ids: set<nat>, d: nat, e: Event) returns (s': System)
    requires Reaches(retries, s, o, ids, d) && Enabled(s, e) && !e.Acknowledge?
    ensures s' == Apply(s, e) && Reaches(retries, s', o, ids, d)
  {
    var run := Reached(retries, s, o, ids, d);
    s' := Apply(s, e);
    LaunchesNothing(Count(retries, run, o), s, e, o, ids, d);
    ExtendRun(retries, run, e, o);
    assert ReachesBy(retries, run + [e], s', o, ids, d);
  }

  lemma OnwardLaunch(retries: int, s: System, o: Id, a: Id, status: Status, ids: set<nat>) returns (s': System)
    requires Reaches(retries, s, o, ids, 0)
    requires Scene(s, o, a, status, status) && (status == Pending || status == Processing)
    ensures s' == AcknowledgeStep(s, s.db.orders[o].account, a) && Reaches(retries, s', o, ids + {s.next}, 0)
  {
    var run := Reached(retries, s, o, ids, 0);
    var e := Acknowledge(s.db.orders[o].account, a);
    s' := Apply(s, e);
    LaunchesOne(Count(retries, run, o), s, o, a, status, ids);
    ExtendRun(retries, run, e, o);
    assert ReachesBy(retries, run + [e], s', o, ids + {s.next}, 0);
  }

  lemma LaunchesOne(t: Tally, s: System, o: Id, a: Id, status: Status, ids: set<nat>)
    requires Within(t, ids, 0)
    requires Scene(s, o, a, status, status) && (status == Pending || status == Processing)
    ensures var e := Acknowledge(s.db.orders[o].account, a);
            Within(Observe(t, s, e, Apply(s, e), o), ids + {s.next}, 0)
  {
    AcknowledgedScene(s, o, a, status);
  }

  lemma OnwardClaim(retries: int, s: System, o: Id, ids: set<nat>, d: nat, d': nat, i: nat) returns (s': System)
    requires Reaches(retries, s, o, ids, d) && d' == d + 1 && i in s.tasks && s.tasks[i] == Claim(o) && IsReady(s, o)
    ensures s' == ClaimStep(s, i, o) && Reaches(retries, s', o, ids, d')
  {
    var run := Reached(retries, s, o, ids, d);
    s' := ClaimStep(s, i, o);
    ExtendRun(retries, run, Resume(i, Proceed), o);
    ClaimObserve(s, Count(retries, run, o), i, o);
    assert ReachesBy(retries, run + [Resume(i, Proceed)], s', o, ids, d');
  }

  /** Validators that have passed and not yet committed. */
  ghost predicate Late(s: System, o: Id, a: Id, ids: set<nat>) {
    forall i | i in ids :: i in s.tasks && i < s.next && s.tasks[i] == Fetched(a, o, true)
  }

  lemma Ordered(retries: int) returns (s: System)
    ensures Reaches(retries, s, "o", {}, 0) && Scene(s, "o", "a", Pending, Pending)
  {
    s := Initial(retries);
    assert ReachesBy(retries, [], s, "o", {}, 0);
    s := Onward(retries, s, "o", {}, 0, NewAccount("client"));
    assert !Blank("host.test") by { assert !IsSpace("host.test"[0]); }
    s := Onward(retries, s, "o", {}, 0, NewOrder("client", [Identifier("dns", "host.test")], true, "o", "a", "token"));
    assert AuthzsOf(s.db, "o") == {"a"};
  }

  lemma OneMoreStarted(retries: int, s: System, o: Id, a: Id, status: Status, ids: set<nat>) returns (s': System)
    requires Reaches(retries, s, o, ids, 0) && Late(s, o, a, ids)
    requires Scene(s, o, a, status, status) && (status == Pending || status == Processing)
    ensures Reaches(retries, s', o, ids + {s.next}, 0) && Late(s', o, a, ids) && s.next !in ids
    ensures Scene(s', o, a, Processing, Processing)
    ensures s.next in s'.tasks && s.next < s'.next && s'.tasks[s.next] == Validator(a, o)
  {
    AcknowledgedScene(s, o, a, status);
    s' := OnwardLaunch(retries, s, o, a, status, ids);
  }

  /** One more acknowledgement, and the validator it starts passes. */
  lemma OneMoreLate(retries: int, s: System, o: Id, a: Id, status: Status, ids: set<nat>) returns (s': System)
    requires Reaches(retries, s, o, ids, 0) && Late(s, o, a, ids)
    requires Scene(s, o, a, status, status) && (status == Pending || status == Processing)
    ensures s.next !in ids && Reaches(retries, s', o, ids + {s.next}, 0) && Late(s', o, a, ids + {s.next})
    ensures Scene(s', o, a, Processing, Processing)
  {
    var started := OneMoreStarted(retries, s, o, a, status, ids);
    s' := Passes(retries, started, o, a, ids + {s.next}, s.next);
  }

  lemma Passes(retries: int, s: System, o: Id, a: Id, ids: set<nat>, i: nat) returns (s': System)
    requires Reaches(retries, s, o, ids, 0) && Scene(s, o, a, Processing, Processing)
    requires i in s.tasks && s.tasks[i] == Validator(a, o)
    ensures Reaches(retries, s', o, ids, 0) && s' == s.(tasks := s.tasks[i := Fetched(a, o, true)])
  {
    FetchedScene(s, i, o, a, Processing);
    s' := Onward(retries, s, o, ids, 0, Resume(i, Proceed));
    s' := Onward(retries, s', o, ids, 0, Resume(i, Passing(s)));
  }

  /** One of them commits, and the client is granted another issuance. */
  lemma OneMoreIssued(retries: int, s: System, o: Id, a: Id, authz: Status, all: set<nat>, ids: set<nat>, i: nat,
      d: nat)
    returns (s': System)
    requires Reaches(retries, s, o, all, d) && Scene(s, o, a, Processing, authz) && Late(s, o, a, ids) && i in ids
    ensures Reaches(retries, s', o, all, d + 1) && Scene(s', o, a, Processing, Valid) && Late(s', o, a, ids - {i})
  {
    CommittedScene(s, i, o, a, Processing, authz);
    var s1 := Onward(retries, s, o, all, d, Resume(i, Proceed));
    GrantedScene(s1, o, a);
    var s2 := Onward(retries, s1, o, all, d, Finalize(s1.db.orders[o].account, o, true));
    ClaimedScene(s2, s1.next, o, a);
    s' := OnwardClaim(retries, s2, o, all, d, d + 1, s1.next);
  }

  /** Of all the validators ever started those in `ids` have still to commit; `d` issuances were dispatched. */
  ghost predicate Draining(retries: int, o: Id, a: Id, all: set<nat>, ids: set<nat>, d: nat) {
    exists s, authz :: DrainingAt(retries, s, authz, o, a, all, ids, d)
  }

  ghost predicate DrainingAt(retries: int, s: System, authz: Status, o: Id, a: Id, all: set<nat>, ids: set<nat>,
      d: nat) {
    Reaches(retries, s, o, all, d) && Scene(s, o, a, Processing, authz) && Late(s, o, a, ids)
  }

  lemma DrainOne(retries: int, o: Id, a: Id, all: set<nat>, ids: set<nat>, i: nat, d: nat)
    requires Draining(retries, o, a, all, ids, d) && i in ids
    ensures Draining(retries, o, a, all, ids - {i}, d + 1)
  {
    var s, authz :| DrainingAt(retries, s, authz, o, a, all, ids, d);
    var s' := OneMoreIssued(retries, s, o, a, authz, all, ids, i, d);
    assert DrainingAt(retries, s', Valid, o, a, all, ids - {i}, d + 1);
  }

  lemma {:induction false} DrainAll(retries: int, o: Id, a: Id, all: set<nat>, ids: set<nat>, d: nat, n: nat)
    requires Draining(retries, o, a, all, ids, d) && d + |ids| == n
    ensures Draining(retries, o, a, all, {}, n)
    decreases |ids|
  {
    if ids != {} {
      var i := Pick(ids);
      DrainOne(retries, o, a, all, ids, i, d);
      DrainAll(retries, o, a, all, ids - {i}, d + 1, n);
    }
  }

  lemma Pick(ids: set<nat>) returns (i: nat)
    requires ids != {}
    ensures i in ids && |ids - {i}| == |ids| - 1
  {
    i :| i in ids;
  }

  /** `n` validators have passed, and none has committed. */
  lemma {:induction false} AllLate(retries: int, n: nat) returns (s: System, ids: set<nat>)
    ensures |ids| == n && Reaches(retries, s, "o", ids, 0) && Late(s, "o", "a", ids)
    ensures Scene(s, "o", "a", if n == 0 then Pending else Processing, if n == 0 then Pending else Processing)
  {
    if n == 0 {
      ids := {};
      s := Ordered(retries);
    } else {
      s, ids := AllLate(retries, n - 1);
      OneMore(ids, s.next);
      var s' := OneMoreLate(retries, s, "o", "a", if n == 1 then Pending else Processing, ids);
      s, ids := s', ids + {s.next};
    }
  }

  /** For every positive number some run starts that many validators and dispatches that many issuances of one order. */
  lemma BoundIsReached(retries: int, n: nat) returns (run: seq<Event>)
    requires n > 0
    ensures Legal(retries, run) && Sole(After(retries, run).db, "o", "a")
    ensures |Count(retries, run, "o").launched| == n == Count(retries, run, "o").dispatches
  {
    var s, ids := AllLate(retries, n);
    assert DrainingAt(retries, s, Processing, "o", "a", ids, ids, 0);
    DrainAll(retries, "o", "a", ids, ids, 0, n);
    var authz;
    s, authz :| DrainingAt(retries, s, authz, "o", "a", ids, {}, n);
    run := Reached(retries, s, "o", ids, n);
    IssuanceBound(retries, run, "o");
    var launched := Count(retries, run, "o").launched;
    SubsetSize(launched.Keys, ids);
    assert |launched.Keys| == |launched|;
  }
}
