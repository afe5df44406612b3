/** When a certificate can be requested for a name whose HTTP-01 proof the relay never fetched. */
module OrderProof {
  import opened OrderModel
  import opened OrderInvariants
  import opened OrderIssuance

  /** The authorizations some attempt of validate_http01 found the expected key authorization for. */
  ghost function Matched(retries: int, run: seq<Event>): set<Id>
    requires Legal(retries, run)
    decreases |run|
  {
    if run == [] then {} else
    var s, e := After(retries, Before(run)), Last(run);
    Matched(retries, Before(run)) + (if MatchesProof(s, e) then {s.tasks[e.task].authz} else {})
  }

  predicate MatchesProof(s: System, e: Event) {
    e.Resume? && e.answer == AttemptMatched && e.task in s.tasks && s.tasks[e.task].Fetching?
        && s.tasks[e.task].left > 0
  }

  ghost predicate Witnessed(s: System, matched: set<Id>) {
    && s.retries > 0
    && (forall i | i in s.tasks && s.tasks[i].Fetching? :: s.tasks[i].left > 0)
    && (forall i | i in s.tasks && s.tasks[i].Fetched? && s.tasks[i].ok :: s.tasks[i].authz in matched)
    && (forall a | a in s.db.authzs && s.db.authzs[a].status == Valid :: a in matched)
  }

  lemma RequestWitnessed(s: System, e: Event, matched: set<Id>)
    requires Sound(s) && Witnessed(s, matched) && Enabled(s, e) && !e.Resume?
    ensures Witnessed(Apply(s, e), matched)
  {
  }

  lemma ValidatorWitnessed(s: System, i: nat, answer: Answer, matched: set<Id>)
    requires Sound(s) && Witnessed(s, matched) && CanResume(s, i, answer)
    requires IsValidator(s.tasks[i])
    ensures Witnessed(ResumeStep(s, i, answer),
                      matched + if MatchesProof(s, Resume(i, answer)) then {s.tasks[i].authz} else {})
  {
  }

  lemma FinalizerWitnessed(s: System, i: nat, answer: Answer, matched: set<Id>)
    requires Sound(s) && Witnessed(s, matched) && CanResume(s, i, answer)
    requires !IsValidator(s.tasks[i])
    ensures Witnessed(ResumeStep(s, i, answer), matched)
  {
    assert ResumeStep(s, i, answer).db.authzs == s.db.authzs;
  }

  lemma StepWitnessed(s: System, e: Event, matched: set<Id>)
    requires Sound(s) && Witnessed(s, matched) && Enabled(s, e)
    ensures Witnessed(Apply(s, e), matched + if MatchesProof(s, e) then {s.tasks[e.task].authz} else {})
  {
    assert matched + {} == matched;
    if e.Resume? {
      if IsValidator(s.tasks[e.task]) {
        ValidatorWitnessed(s, e.task, e.answer, matched);
      } else {
        FinalizerWitnessed(s, e.task, e.answer, matched);
      }
    } else {
      RequestWitnessed(s, e, matched);
    }
  }

  lemma {:induction false} RunWitnessed(retries: int, run: seq<Event>)
    requires Legal(retries, run) && retries > 0
    ensures Witnessed(After(retries, run), Matched(retries, run))
    decreases |run|
  {
    if run != [] {
      RunSound(retries, Before(run));
      RunWitnessed(retries, Before(run));
      StepWitnessed(After(retries, Before(run)), Last(run), Matched(retries, Before(run)));
    }
  }

  /** With no attempt configured, no task ever has one to make. */
  ghost predicate Unattempted(s: System) {
    s.retries <= 0 && forall i | i in s.tasks && s.tasks[i].Fetching? :: s.tasks[i].left == 0
  }

  lemma StepUnattempted(s: System, e: Event)
    requires Unattempted(s) && Enabled(s, e)
    ensures Unattempted(Apply(s, e)) && !MatchesProof(s, e)
  {
  }

  lemma {:induction false} RunUnattempted(retries: int, run: seq<Event>)
    requires Legal(retries, run) && retries <= 0
    ensures Unattempted(After(retries, run)) && Matched(retries, run) == {}
    decreases |run|
  {
    if run != [] {
      RunUnattempted(retries, Before(run));
      StepUnattempted(After(retries, Before(run)), Last(run));
    }
  }

  /**
   An issuance is dispatched only after every authorization of the order was proved, exactly when at least one
   attempt is configured: with none, every issuance there is goes without proof.
   */
  lemma NoIssuanceWithoutProof(retries: int, run: seq<Event>, o: Id)
    requires Legal(retries, run) && run != []
    requires Dispatches(After(retries, Before(run)), After(retries, run), o)
    ensures AuthzsOf(After(retries, run).db, o) <= Matched(retries, run) <==> retries > 0
  {
    if retries > 0 {
      DispatchIsWitnessed(retries, run, o);
    } else {
      RunUnattempted(retries, run);
      RunBounded(retries, run, o);
      assert Count(retries, run, o).dispatches > 0;
    }
  }

  lemma DispatchIsWitnessed(retries: int, run: seq<Event>, o: Id)
    requires Legal(retries, run) && run != [] && retries > 0
    requires Dispatches(After(retries, Before(run)), After(retries, run), o)
    ensures AuthzsOf(After(retries, run).db, o) <= Matched(retries, run)
  {
    var s, e := After(retries, Before(run)), Last(run);
    RunSound(retries, Before(run));
    DispatchNeedsReady(s, e, o);
    RunWitnessed(retries, Before(run));
    ReadyIsWitnessed(s, Matched(retries, Before(run)), o);
    assert ClaimStep(s, e.task, o).db.authzs == s.db.authzs;
  }

  lemma ReadyIsWitnessed(s: System, matched: set<Id>, o: Id)
    requires Sound(s) && Witnessed(s, matched) && IsReady(s, o)
    ensures AuthzsOf(s.db, o) <= matched
  {
  }
}
