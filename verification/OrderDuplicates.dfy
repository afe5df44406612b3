/** The other side of `IssuanceBound`: every duplicate success does buy one more issuance. */
module OrderDuplicates {
  import opened OrderModel
  import opened OrderInvariants
  import opened OrderIssuance
  import opened OrderPhases
  import opened Sizes

  lemma LateSuccess(s: System, i: nat, o: Id, a: Id)
    requires Sound(s) && Sole(s.db, o, a) && i in s.tasks && s.tasks[i] == Fetched(a, o, true)
    ensures Apply(s, Resume(i, Proceed)).next == s.next
    ensures Apply(s, Resume(i, Proceed)).db.orders == s.db.orders[o := s.db.orders[o].(status := Ready)]
  {
    forall b | b in s.db.authzs && s.db.authzs[b].order == o ensures b == a {
      assert b in AuthzsOf(s.db, o);
    }
  }

  lemma Reclaim(s: System, o: Id)
    requires IsReady(s, o) && s.db.orders[o].identifiers != []
    ensures var s' := Apply(s, Finalize(s.db.orders[o].account, o, true));
            CanResume(s', s.next, Proceed) && s'.tasks[s.next] == Claim(o) && IsReady(s', o)
  {
  }

  lemma ExtendRun(retries: int, run: seq<Event>, e: Event, o: Id)
    requires Legal(retries, run) && Enabled(After(retries, run), e)
    ensures Legal(retries, run + [e]) && After(retries, run + [e]) == Apply(After(retries, run), e)
    ensures Count(retries, run + [e], o)
         == Observe(Count(retries, run, o), After(retries, run), e, Apply(After(retries, run), e), o)
  {
    assert Before(run + [e]) == run;
  }

  /**
   Whatever the order's status - already issued, say - a validator that succeeds now makes it ready again,
   and a finalize request that follows is granted one more issuance.
   */
  lemma LateSuccessReissues(retries: int, run: seq<Event>, i: nat, o: Id, a: Id)
    requires Legal(retries, run)
    requires var s := After(retries, run);
             && Sole(s.db, o, a) && s.db.orders[o].identifiers != []
             && i in s.tasks && s.tasks[i] == Fetched(a, o, true)
    ensures var s := After(retries, run);
            var run' := run + [Resume(i, Proceed)] + [Finalize(s.db.orders[o].account, o, true)]
                + [Resume(s.next, Proceed)];
            Legal(retries, run') && Count(retries, run', o).dispatches > Count(retries, run, o).dispatches
  {
    RunSound(retries, run);
    ExtendRun(retries, run, Resume(i, Proceed), o);
    LateSuccess(After(retries, run), i, o, a);
    ReadyIssues(retries, run + [Resume(i, Proceed)], o);
  }

  /** A finalize request for a ready order is granted an issuance. */
  lemma ReadyIssues(retries: int, run: seq<Event>, o: Id)
    requires Legal(retries, run) && IsReady(After(retries, run), o)
    requires After(retries, run).db.orders[o].identifiers != []
    ensures var s := After(retries, run);
            var run' := run + [Finalize(s.db.orders[o].account, o, true)] + [Resume(s.next, Proceed)];
            Legal(retries, run') && Count(retries, run', o).dispatches > Count(retries, run, o).dispatches
  {
    var s := After(retries, run);
    var e := Finalize(s.db.orders[o].account, o, true);
    Reclaim(s, o);
    ExtendRun(retries, run, e, o);
    ExtendRun(retries, run + [e], Resume(s.next, Proceed), o);
    ClaimObserve(After(retries, run + [e]), Count(retries, run + [e], o), s.next, o);
  }

  // ----- exactly when a final status is left

  predicate Final(status: Status) {
    status == Valid || status == Invalid
  }

  /** The task commits a success that leaves no authorization of the order unproved. */
  predicate Completes(s: System, e: Event, o: Id) {
    && e.Resume? && e.task in s.tasks && s.tasks[e.task].Fetched? && s.tasks[e.task].ok && s.tasks[e.task].order == o
    && s.tasks[e.task].authz in s.db.authzs
    && AllValid(WithAuthzStatus(s.db, s.tasks[e.task].authz, Valid), o)
  }

  lemma CloseCompletes(s: System, i: nat, o: Id)
    requires Sound(s) && i in s.tasks && s.tasks[i].Fetched? && s.tasks[i].order == o
    ensures var s' := CloseStep(s, i, s.tasks[i].authz, o, s.tasks[i].ok);
            s'.db.orders[o].status
            == if Completes(s, Resume(i, Proceed), o) then Ready else if s.tasks[i].ok then s.db.orders[o].status
                else Invalid
  {
  }

  /** The task makes the order invalid: its proof or its issuance failed, or there is nothing to prove it with. */
  predicate Refuses(s: System, e: Event, o: Id) {
    && e.Resume? && e.task in s.tasks && s.tasks[e.task].order == o && o in s.db.orders
    && match s.tasks[e.task]
       case Fetched(_, _, ok) => !ok
       case Signing(_) => e.answer == SignFailed
       case Validator(a, _) =>
         a in s.db.authzs && (s.db.authzs[a].token.None? || s.db.orders[o].account !in s.db.accounts)
       case _ => false
  }

  /** The task commits a certificate to the order. */
  predicate Commits(s: System, e: Event, o: Id) {
    e.Resume? && e.task in s.tasks && s.tasks[e.task].Storing? && s.tasks[e.task].order == o
  }

  /**
   In every reachable state, whatever the number of authorizations, validators and finalizers: what each step makes of
   an order that is valid or invalid. So `valid` is left exactly by a late success that completes the authorizations
   or by a late failure, and `invalid` exactly by such a success or by a late certificate.
   */
  lemma LeavesFinal(s: System, e: Event, o: Id)
    requires Sound(s) && Enabled(s, e) && o in s.db.orders && Final(s.db.orders[o].status)
    ensures o in Apply(s, e).db.orders
    ensures var status, status' := s.db.orders[o].status, Apply(s, e).db.orders[o].status;
            && status' == (if Completes(s, e, o) then Ready else if Refuses(s, e, o) then Invalid
                           else if Commits(s, e, o) then Valid else status)
            && (status == Valid ==> (status' != Valid <==> Completes(s, e, o) || Refuses(s, e, o)))
            && (status == Invalid ==> (status' != Invalid <==> Completes(s, e, o) || Commits(s, e, o)))
  {
    if !Concerns(s, e, o) {
      StepAloof(s, e, o);
    } else if e.Resume? && s.tasks[e.task].Fetched? {
      CloseCompletes(s, e.task, o);
    }
  }

  // ----- every order can be issued twice

  /** `s` is a continuation of the run, in which the order has been dispatched at least `d` times. */
  ghost predicate LeadsBy(retries: int, run: seq<Event>, more: seq<Event>, o: Id, s: System, d: nat) {
    Legal(retries, run + more) && After(retries, run + more) == s && Count(retries, run + more, o).dispatches >= d
  }

  /** Some continuation leads to `s`. Kept behind a seal, so that proofs that only pass it on do not look inside. */
  ghost predicate Leads(retries: int, run: seq<Event>, o: Id, s: System, d: nat) {
    forall key | Unseals(key) :: exists more :: LeadsBy(retries, run, more, o, s, d)
  }

  predicate Unseals(key: int) {
    key == 0
  }

  lemma Unsealed(retries: int, run: seq<Event>, o: Id, s: System, d: nat) returns (more: seq<Event>)
    requires Leads(retries, run, o, s, d)
    ensures LeadsBy(retries, run, more, o, s, d)
  {
    assert Unseals(0);
    more :| LeadsBy(retries, run, more, o, s, d);
  }

  lemma Goes(retries: int, run: seq<Event>, o: Id, s: System, d: nat, e: Event) returns (s': System)
    requires Leads(retries, run, o, s, d) && Enabled(s, e)
    ensures s' == Apply(s, e)
    ensures Leads(retries, run, o, s', d)
  {
    var more := Unsealed(retries, run, o, s, d);
    s' := Apply(s, e);
    ExtendRun(retries, run + more, e, o);
    assert run + (more + [e]) == run + more + [e];
    assert LeadsBy(retries, run, more + [e], o, s', d);
  }

  lemma Wins(retries: int, run: seq<Event>, o: Id, s: System, d: nat, d': nat, i: nat) returns (s': System)
    requires Leads(retries, run, o, s, d) && d' == d + 1
    requires i in s.tasks && s.tasks[i] == Claim(o) && IsReady(s, o)
    ensures s' == ClaimStep(s, i, o) && Leads(retries, run, o, s', d')
  {
    var more := Unsealed(retries, run, o, s, d);
    var e := Resume(i, Proceed);
    s' := ClaimStep(s, i, o);
    ExtendRun(retries, run + more, e, o);
    ClaimObserve(s, Count(retries, run + more, o), i, o);
    assert run + (more + [e]) == run + more + [e];
    assert LeadsBy(retries, run, more + [e], o, s', d');
  }

  /** The order has one authorization, and all that issuing it takes; it and the authorization are in these statuses. */
  predicate Scene(s: System, o: Id, a: Id, order: Status, authz: Status) {
    && Sole(s.db, o, a) && a in s.db.authzs
    && s.db.orders[o].account in s.db.accounts && s.db.orders[o].identifiers != [] && s.db.authzs[a].token.Some?
    && s.db.orders[o].status == order && s.db.authzs[a].status == authz && s.db.authzs[a].order == o
  }

  lemma AcknowledgedScene(s: System, o: Id, a: Id, status: Status)
    requires Scene(s, o, a, status, status) && (status == Pending || status == Processing)
    ensures var s' := AcknowledgeStep(s, s.db.orders[o].account, a);
            && Scene(s', o, a, Processing, Processing) && s'.db.certs == s.db.certs
            && s'.tasks == s.tasks[s.next := Validator(a, o)] && s'.next == s.next + 1
  {
    var s' := AcknowledgeStep(s, s.db.orders[o].account, a);
    assert AuthzsOf(s'.db, o) == AuthzsOf(s.db, o);
  }

  /** The first attempt finds the proof, if one is made. */
  function Passing(s: System): Answer {
    if s.retries > 0 then AttemptMatched else Proceed
  }

  lemma FetchedScene(s: System, i: nat, o: Id, a: Id, status: Status)
    requires Scene(s, o, a, status, status) && i in s.tasks && s.tasks[i] == Validator(a, o)
    ensures var s' := ResumeStep(s, i, Proceed);
            CanResume(s', i, Passing(s))
            && ResumeStep(s', i, Passing(s)) == s.(tasks := s.tasks[i := Fetched(a, o, true)])
  {
    var left := if s.retries > 0 then s.retries else 0;
    assert s.tasks[i := Fetching(a, o, left)][i := Fetched(a, o, true)] == s.tasks[i := Fetched(a, o, true)];
  }

  lemma CommittedScene(s: System, i: nat, o: Id, a: Id, order: Status, authz: Status)
    requires Scene(s, o, a, order, authz) && i in s.tasks && s.tasks[i] == Fetched(a, o, true)
    ensures var s' := ResumeStep(s, i, Proceed);
            Scene(s', o, a, Ready, Valid) && s'.tasks == s.tasks - {i} && s'.next == s.next && s'.db.certs == s.db.certs
  {
    var s' := ResumeStep(s, i, Proceed);
    forall b | b in s.db.authzs && s.db.authzs[b].order == o ensures b == a {
      assert b in AuthzsOf(s.db, o);
    }
    assert AuthzsOf(s'.db, o) == AuthzsOf(s.db, o);
  }

  lemma GrantedScene(s: System, o: Id, a: Id)
    requires Scene(s, o, a, Ready, Valid)
    ensures FinalizeStep(s, s.db.orders[o].account, o, true) == Spawn(s, Claim(o))
  {
  }

  lemma ClaimedScene(s: System, i: nat, o: Id, a: Id)
    requires Scene(s, o, a, Ready, Valid) && i in s.tasks && s.tasks[i] == Claim(o)
    ensures var s' := ClaimStep(s, i, o);
            Scene(s', o, a, Processing, Valid) && s'.tasks == s.tasks[i := Finalizer(o)] && s'.db.certs == s.db.certs
  {
    assert AuthzsOf(ClaimStep(s, i, o).db, o) == AuthzsOf(s.db, o);
  }

  lemma SignedScene(s: System, i: nat, o: Id, a: Id, c: Id)
    requires Scene(s, o, a, Processing, Valid) && i in s.tasks && s.tasks[i] == Finalizer(o) && c !in s.db.certs
    ensures var s1 := ResumeStep(s, i, Proceed);
            && CanResume(s1, i, Signed(c, "chain"))
            && var s2 := ResumeStep(s1, i, Signed(c, "chain"));
               Scene(s2, o, a, Processing, Valid) && s2.tasks == s.tasks[i := Storing(o, c)]
  {
    var s1 := ResumeStep(s, i, Proceed);
    var s2 := ResumeStep(s1, i, Signed(c, "chain"));
    assert s2.tasks == s.tasks[i := Storing(o, c)];
  }

  lemma CompletedScene(s: System, i: nat, o: Id, a: Id, c: Id, status: Status)
    requires Scene(s, o, a, status, Valid) && i in s.tasks && s.tasks[i] == Storing(o, c)
    ensures var s' := ResumeStep(s, i, Proceed); Scene(s', o, a, Valid, Valid) && s'.tasks == s.tasks - {i}
  {
    var s' := ResumeStep(s, i, Proceed);
    assert AuthzsOf(s'.db, o) == AuthzsOf(s.db, o);
  }

  lemma Here(retries: int, run: seq<Event>, o: Id)
    requires Legal(retries, run)
    ensures Leads(retries, run, o, After(retries, run), 0)
  {
    assert run + [] == run;
    assert LeadsBy(retries, run, [], o, After(retries, run), 0);
  }

  /** Two acknowledgements before the first validator is done: both are accepted, and each starts one. */
  lemma BothValidate(retries: int, run: seq<Event>, o: Id, a: Id, s0: System) returns (s: System, i: nat, j: nat)
    requires Leads(retries, run, o, s0, 0) && Scene(s0, o, a, Pending, Pending)
    ensures Leads(retries, run, o, s, 0) && Scene(s, o, a, Processing, Processing)
    ensures s.db.certs == s0.db.certs
    ensures i in s.tasks && j in s.tasks && i < j < s.next && s.tasks[i] == s.tasks[j] == Validator(a, o)
  {
    s := s0;
    i, j := s.next, s.next + 1;
    AcknowledgedScene(s, o, a, Pending);
    s := Goes(retries, run, o, s, 0, Acknowledge(s.db.orders[o].account, a));
    AcknowledgedScene(s, o, a, Processing);
    s := Goes(retries, run, o, s, 0, Acknowledge(s.db.orders[o].account, a));
  }

  /** A validator passes as soon as it can. */
  lemma Fetches(retries: int, run: seq<Event>, o: Id, a: Id, s: System, i: nat) returns (s': System)
    requires Leads(retries, run, o, s, 0) && Scene(s, o, a, Processing, Processing) && i in s.tasks
             && s.tasks[i] == Validator(a, o)
    ensures Leads(retries, run, o, s', 0) && s' == s.(tasks := s.tasks[i := Fetched(a, o, true)])
  {
    FetchedScene(s, i, o, a, Processing);
    s' := Goes(retries, run, o, s, 0, Resume(i, Proceed));
    s' := Goes(retries, run, o, s', 0, Resume(i, Passing(s)));
  }

  /** The order is ready, and a second validator has its success still to commit. */
  lemma FirstCommits(retries: int, run: seq<Event>, o: Id, a: Id, s0: System) returns (s: System, j: nat)
    requires Leads(retries, run, o, s0, 0) && Scene(s0, o, a, Pending, Pending)
    ensures Leads(retries, run, o, s, 0) && Scene(s, o, a, Ready, Valid) && s.db.certs == s0.db.certs
    ensures j in s.tasks && j < s.next && s.tasks[j] == Fetched(a, o, true)
  {
    var i: nat;
    s, i, j := BothValidate(retries, run, o, a, s0);
    s := Fetches(retries, run, o, a, s, i);
    s := Fetches(retries, run, o, a, s, j);
    CommittedScene(s, i, o, a, Processing, Processing);
    s := Goes(retries, run, o, s, 0, Resume(i, Proceed));
  }

  lemma Granted(retries: int, run: seq<Event>, o: Id, a: Id, s0: System) returns (s: System, j: nat, k: nat)
    requires Leads(retries, run, o, s0, 0) && Scene(s0, o, a, Pending, Pending)
    ensures Leads(retries, run, o, s, 0) && Scene(s, o, a, Ready, Valid) && s.db.certs == s0.db.certs
    ensures j in s.tasks && s.tasks[j] == Fetched(a, o, true) && k in s.tasks && s.tasks[k] == Claim(o)
  {
    s, j := FirstCommits(retries, run, o, a, s0);
    k := s.next;
    GrantedScene(s, o, a);
    s := Goes(retries, run, o, s, 0, Finalize(s.db.orders[o].account, o, true));
  }

  lemma Dispatched(retries: int, run: seq<Event>, o: Id, a: Id, s0: System) returns (s: System, j: nat, k: nat)
    requires Leads(retries, run, o, s0, 0) && Scene(s0, o, a, Pending, Pending)
    ensures Leads(retries, run, o, s, 1) && Scene(s, o, a, Processing, Valid)
            && s.db.certs == s0.db.certs
    ensures j in s.tasks && s.tasks[j] == Fetched(a, o, true) && k in s.tasks && s.tasks[k] == Finalizer(o)
  {
    var granted: System;
    granted, j, k := Granted(retries, run, o, a, s0);
    ClaimedScene(granted, k, o, a);
    s := Wins(retries, run, o, granted, 0, 1, k);
  }

  lemma Stored(retries: int, run: seq<Event>, o: Id, a: Id, c: Id, s0: System)
    returns (s: System, j: nat, k: nat)
    requires Leads(retries, run, o, s0, 0) && Scene(s0, o, a, Pending, Pending) && c !in s0.db.certs
    ensures Leads(retries, run, o, s, 1) && Scene(s, o, a, Processing, Valid)
    ensures j in s.tasks && s.tasks[j] == Fetched(a, o, true) && k in s.tasks && s.tasks[k] == Storing(o, c)
  {
    s, j, k := Dispatched(retries, run, o, a, s0);
    SignedScene(s, k, o, a, c);
    var signing := Goes(retries, run, o, s, 1, Resume(k, Proceed));
    s := Goes(retries, run, o, signing, 1, Resume(k, Signed(c, "chain")));
  }

  /** The order is issued; the second validator has still to commit. */
  lemma IssuedOnce(retries: int, run: seq<Event>, o: Id, a: Id, c: Id, s0: System)
    returns (s: System, j: nat)
    requires Leads(retries, run, o, s0, 0) && Scene(s0, o, a, Pending, Pending) && c !in s0.db.certs
    ensures Leads(retries, run, o, s, 1) && Scene(s, o, a, Valid, Valid)
    ensures j in s.tasks && s.tasks[j] == Fetched(a, o, true)
  {
    var k: nat;
    s, j, k := Stored(retries, run, o, a, c, s0);
    CompletedScene(s, k, o, a, c, Processing);
    s := Goes(retries, run, o, s, 1, Resume(k, Proceed));
  }

  /** One certificate is stored and not yet committed, and a second issuance waits for the CA. */
  lemma TwoFinalizers(retries: int, run: seq<Event>, o: Id, a: Id, c: Id, s0: System)
    returns (s: System, k: nat, m: nat)
    requires Leads(retries, run, o, s0, 0) && Scene(s0, o, a, Pending, Pending) && c !in s0.db.certs
    ensures Leads(retries, run, o, s, 2) && Scene(s, o, a, Processing, Valid) && k != m
    ensures k in s.tasks && s.tasks[k] == Storing(o, c) && m in s.tasks && s.tasks[m] == Signing(o)
  {
    var j: nat;
    s, j, k := Stored(retries, run, o, a, c, s0);
    LeadsBelow(retries, run, o, s, 1);
    CommittedScene(s, j, o, a, Processing, Valid);
    s := Goes(retries, run, o, s, 1, Resume(j, Proceed));
    m := s.next;
    s := SecondClaim(retries, run, o, a, c, s, k);
    StartedScene(s, m, o, a);
    s := Goes(retries, run, o, s, 2, Resume(m, Proceed));
  }

  lemma LeadsBelow(retries: int, run: seq<Event>, o: Id, s: System, d: nat)
    requires Leads(retries, run, o, s, d)
    ensures forall i | i in s.tasks :: i < s.next
  {
    var more := Unsealed(retries, run, o, s, d);
    RunSound(retries, run + more);
  }

  lemma SecondClaim(retries: int, run: seq<Event>, o: Id, a: Id, c: Id, s: System, k: nat) returns (s': System)
    requires Leads(retries, run, o, s, 1) && Scene(s, o, a, Ready, Valid)
    requires k in s.tasks && k < s.next && s.tasks[k] == Storing(o, c)
    ensures Leads(retries, run, o, s', 2) && Scene(s', o, a, Processing, Valid)
    ensures k in s'.tasks && s'.tasks[k] == Storing(o, c) && s.next in s'.tasks && s'.tasks[s.next] == Finalizer(o)
  {
    GrantedScene(s, o, a);
    var granted := Goes(retries, run, o, s, 1, Finalize(s.db.orders[o].account, o, true));
    ClaimedScene(granted, s.next, o, a);
    s' := Wins(retries, run, o, granted, 1, 2, s.next);
  }

  lemma StartedScene(s: System, i: nat, o: Id, a: Id)
    requires Scene(s, o, a, Processing, Valid) && i in s.tasks && s.tasks[i] == Finalizer(o)
    ensures ResumeStep(s, i, Proceed) == s.(tasks := s.tasks[i := Signing(o)])
  {
  }

  lemma FailedScene(s: System, i: nat, o: Id, a: Id, status: Status)
    requires Scene(s, o, a, status, Valid) && i in s.tasks && s.tasks[i] == Signing(o)
    ensures var s' := ResumeStep(s, i, SignFailed); Scene(s', o, a, Invalid, Valid) && s'.tasks == s.tasks - {i}
  {
    assert AuthzsOf(ResumeStep(s, i, SignFailed).db, o) == AuthzsOf(s.db, o);
  }

  /** Both finalizers run to their ends: the later one decides. */
  lemma LaterDecides(retries: int, run: seq<Event>, o: Id, a: Id, lost: bool)
    returns (more: seq<Event>, e: Event)
    requires Legal(retries, run) && Scene(After(retries, run), o, a, Pending, Pending)
    ensures Legal(retries, run + more) && Legal(retries, run + more + [e])
    ensures Scene(After(retries, run + more), o, a, if lost then Valid else Invalid, Valid)
    ensures Scene(After(retries, run + more + [e]), o, a, if lost then Invalid else Valid, Valid)
  {
    Here(retries, run, o);
    var c := Unused(After(retries, run).db.certs.Keys);
    var s, k, m := TwoFinalizers(retries, run, o, a, c, After(retries, run));
    var first := if lost then Resume(k, Proceed) else Resume(m, SignFailed);
    e := if lost then Resume(m, SignFailed) else Resume(k, Proceed);
    if lost {
      CompletedScene(s, k, o, a, c, Processing);
      s := Goes(retries, run, o, s, 2, first);
      FailedScene(s, m, o, a, Valid);
    } else {
      FailedScene(s, m, o, a, Processing);
      s := Goes(retries, run, o, s, 2, first);
      CompletedScene(s, k, o, a, c, Invalid);
    }
    more := Unsealed(retries, run, o, s, 2);
    ExtendRun(retries, run + more, e, o);
  }

  /** Without that premise `valid` need not last either: an issued order becomes invalid when a later issuance fails. */
  lemma ValidIsLost(retries: int, run: seq<Event>, o: Id, a: Id) returns (issued: seq<Event>, e: Event)
    requires Legal(retries, run) && Scene(After(retries, run), o, a, Pending, Pending)
    ensures Legal(retries, run + issued) && Scene(After(retries, run + issued), o, a, Valid, Valid)
    ensures Legal(retries, run + issued + [e]) && Scene(After(retries, run + issued + [e]), o, a, Invalid, Valid)
  {
    issued, e := LaterDecides(retries, run, o, a, true);
  }

  /** Nor does `invalid`: a certificate that was stored before is still committed after. */
  lemma InvalidIsLost(retries: int, run: seq<Event>, o: Id, a: Id) returns (failed: seq<Event>, e: Event)
    requires Legal(retries, run) && Scene(After(retries, run), o, a, Pending, Pending)
    ensures Legal(retries, run + failed) && Scene(After(retries, run + failed), o, a, Invalid, Valid)
    ensures Legal(retries, run + failed + [e]) && Scene(After(retries, run + failed + [e]), o, a, Valid, Valid)
  {
    failed, e := LaterDecides(retries, run, o, a, false);
  }

  /**
   Whatever happened before, and whatever number of attempts is configured: an order that has one authorization, an
   account, a name and a token and that nobody has acknowledged yet can be acknowledged twice, issued, made ready
   again by the second validator, and issued a second time. So without the premise of one validator neither
   `IssuedAtMostOnce` nor `FinalIsFinal` holds of any such order.
   */
  lemma IssuedTwice(retries: int, run: seq<Event>, o: Id, a: Id) returns (issued: seq<Event>, more: seq<Event>)
    requires Legal(retries, run) && Scene(After(retries, run), o, a, Pending, Pending)
    ensures Legal(retries, run + issued) && Scene(After(retries, run + issued), o, a, Valid, Valid)
    ensures Legal(retries, run + issued + more) && Count(retries, run + issued + more, o).dispatches > 1
  {
    Here(retries, run, o);
    var c := Unused(After(retries, run).db.certs.Keys);
    var s, j := IssuedOnce(retries, run, o, a, c, After(retries, run));
    issued := Unsealed(retries, run, o, s, 1);
    LateSuccessReissues(retries, run + issued, j, o, a);
    more := [Resume(j, Proceed)] + [Finalize(s.db.orders[o].account, o, true)] + [Resume(s.next, Proceed)];
    assert run + issued + more
        == run + issued + [Resume(j, Proceed)] + [Finalize(s.db.orders[o].account, o, true)]
            + [Resume(s.next, Proceed)];
  }
}
