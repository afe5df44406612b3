/** With at most one validator for its one authorization, an order's final statuses are absorbing. */
module OrderFinality {
  import opened OrderModel
  import opened OrderInvariants
  import opened OrderIssuance
  import opened OrderPhases
  import opened Sizes

  /** Which tasks may be live in which pair of statuses; `started` says that a validator was ever launched. */
  ghost predicate Phase(s: System, o: Id, a: Id, started: bool) {
    && Sole(s.db, o, a)
    && a in s.db.authzs
    && var order, authz := s.db.orders[o].status, s.db.authzs[a].status;
    && (authz == Pending <==> order == Pending)
    && (authz == Processing ==> order == Processing && started)
    && (forall i | i in s.tasks :: ValidatorOf(s.tasks[i], o) ==> authz == Processing)
    && (forall i | i in s.tasks :: FinalizerOf(s.tasks[i], o) ==> order == Processing && authz == Valid)
    && (forall i, j | i in s.tasks && j in s.tasks && ValidatorOf(s.tasks[i], o) && ValidatorOf(s.tasks[j], o) ::
        i == j)
    && (forall i, j | i in s.tasks && j in s.tasks && FinalizerOf(s.tasks[i], o) && FinalizerOf(s.tasks[j], o) ::
        i == j)
  }

  predicate StartsValidator(s: System, e: Event, o: Id) {
    e.Acknowledge? && OwnedAuthz(s.db, e.authz, o) && AcknowledgeStep(s, e.caller, e.authz) != s
  }

  lemma SoleOwner(s: System, o: Id, a: Id)
    requires Sole(s.db, o, a)
    ensures a in s.db.authzs && s.db.authzs[a].order == o
    ensures forall b | b in s.db.authzs && s.db.authzs[b].order == o :: b == a
  {
    assert a in AuthzsOf(s.db, o);
    forall b | b in s.db.authzs && s.db.authzs[b].order == o ensures b == a {
      assert b in AuthzsOf(s.db, o);
    }
  }

  lemma AloofPhase(s: System, s': System, o: Id, a: Id, started: bool)
    requires Phase(s, o, a, started) && Aloof(s, s', o)
    ensures Phase(s', o, a, started)
  {
    SoleOwner(s, o, a);
  }

  lemma RequestPhase(s: System, e: Event, o: Id, a: Id, started: bool)
    requires Sound(s) && Phase(s, o, a, started) && Enabled(s, e) && Concerns(s, e, o) && !e.Resume?
    requires StartsValidator(s, e, o) ==> !started
    ensures Phase(Apply(s, e), o, a, started || StartsValidator(s, e, o))
  {
    SoleOwner(s, o, a);
    AuthzsFixed(s, e, o);
  }

  lemma ValidatorPhase(s: System, i: nat, answer: Answer, o: Id, a: Id, started: bool)
    requires Sound(s) && Phase(s, o, a, started) && CanResume(s, i, answer) && s.tasks[i].order == o
    requires IsValidator(s.tasks[i])
    ensures Phase(ResumeStep(s, i, answer), o, a, started)
  {
    SoleOwner(s, o, a);
    assert s.tasks[i].authz == a && ValidatorOf(s.tasks[i], o);
    match s.tasks[i]
    case Validator(_, _) => OpenPhase(s, i, o, a, started);
    case Fetched(_, _, ok) => ClosePhase(s, i, o, a, ok, started);
    case _ =>
  }

  lemma OpenPhase(s: System, i: nat, o: Id, a: Id, started: bool)
    requires Sound(s) && Phase(s, o, a, started) && i in s.tasks && s.tasks[i] == Validator(a, o)
    ensures Phase(OpenStep(s, i, a, o), o, a, started)
  {
    SameAuthzs(s.db, a, Invalid, o);
    assert ValidatorOf(s.tasks[i], o);
  }

  lemma ClosePhase(s: System, i: nat, o: Id, a: Id, ok: bool, started: bool)
    requires Sound(s) && Phase(s, o, a, started) && i in s.tasks && s.tasks[i] == Fetched(a, o, ok)
    ensures Phase(CloseStep(s, i, a, o, ok), o, a, started)
  {
    SoleOwner(s, o, a);
    SameAuthzs(s.db, a, if ok then Valid else Invalid, o);
    assert ValidatorOf(s.tasks[i], o);
  }

  lemma FinalizerPhase(s: System, i: nat, answer: Answer, o: Id, a: Id, started: bool)
    requires Sound(s) && Phase(s, o, a, started) && CanResume(s, i, answer) && s.tasks[i].order == o
    requires !IsValidator(s.tasks[i])
    ensures Phase(ResumeStep(s, i, answer), o, a, started)
  {
    SoleOwner(s, o, a);
    assert AuthzsOf(ResumeStep(s, i, answer).db, o) == AuthzsOf(s.db, o);
    assert s.db.orders[o].status == Ready ==> s.db.authzs[a].status == Valid;
  }

  lemma StepPhase(s: System, e: Event, o: Id, a: Id, started: bool)
    requires Sound(s) && Phase(s, o, a, started) && Enabled(s, e)
    requires StartsValidator(s, e, o) ==> !started
    ensures Phase(Apply(s, e), o, a, started || StartsValidator(s, e, o))
  {
    if !Concerns(s, e, o) {
      StepAloof(s, e, o);
      AloofPhase(s, Apply(s, e), o, a, started);
    } else if e.Resume? {
      if IsValidator(s.tasks[e.task]) {
        ValidatorPhase(s, e.task, e.answer, o, a, started);
      } else {
        FinalizerPhase(s, e.task, e.answer, o, a, started);
      }
    } else {
      RequestPhase(s, e, o, a, started);
    }
  }

  lemma FinalStep(s: System, e: Event, o: Id, a: Id, started: bool)
    requires Sound(s) && Phase(s, o, a, started) && Enabled(s, e)
    requires s.db.orders[o].status == Valid || s.db.orders[o].status == Invalid
    ensures o in Apply(s, e).db.orders && Apply(s, e).db.orders[o] == s.db.orders[o]
  {
    if !Concerns(s, e, o) {
      StepAloof(s, e, o);
    } else {
      SoleOwner(s, o, a);
      match e
      case Resume(i, answer) =>
        assert !ValidatorOf(s.tasks[i], o) && !FinalizerOf(s.tasks[i], o);
        assert s.tasks[i] == Claim(o);
      case _ =>
    }
  }

  lemma LaunchesGrow(s: System, t: Tally, e: Event, o: Id)
    requires Sound(s) && Bounded(s, t, o) && Enabled(s, e)
    ensures var t' := Observe(t, s, e, Apply(s, e), o);
            && |t.launched| <= |t'.launched|
            && (StartsValidator(s, e, o) ==> |t'.launched| == |t.launched| + 1)
  {
    MergeGrows(t.launched, Launches(s, Apply(s, e), o));
    if StartsValidator(s, e, o) {
      AcknowledgeObserve(s, t, e.caller, e.authz, o);
      NewLaunch(t.launched, s.next, e.authz);
    }
  }

  lemma MergeGrows(launched: map<nat, Id>, more: map<nat, Id>)
    ensures |launched| <= |launched + more|
  {
    SubsetSize(launched.Keys, (launched + more).Keys);
    assert |launched.Keys| == |launched| && |(launched + more).Keys| == |launched + more|;
  }

  lemma NewLaunch(launched: map<nat, Id>, i: nat, a: Id)
    requires i !in launched
    ensures |launched[i := a]| == |launched| + 1
  {
    OneMore(launched.Keys, i);
    assert launched[i := a].Keys == launched.Keys + {i};
    assert |launched.Keys| == |launched| && |launched[i := a].Keys| == |launched[i := a]|;
  }

  lemma {:induction false} RunPhase(retries: int, run: seq<Event>, o: Id, a: Id)
    requires Legal(retries, run) && Sole(After(retries, run).db, o, a)
    requires |Count(retries, run, o).launched| <= 1
    ensures Phase(After(retries, run), o, a, Count(retries, run, o).launched != map[])
    decreases |run|
  {
    if run != [] {
      var s, e, t := After(retries, Before(run)), Last(run), Count(retries, Before(run), o);
      RunSound(retries, Before(run));
      RunBounded(retries, Before(run), o);
      LaunchesGrow(s, t, e, o);
      if o in s.db.orders {
        AuthzsFixed(s, e, o);
        RunPhase(retries, Before(run), o, a);
        StepPhase(s, e, o, a, t.launched != map[]);
      } else {
        SoleOwner(Apply(s, e), o, a);
        Born(s, e, o);
      }
    }
  }

  lemma {:induction false} LaunchesGrowAlong(retries: int, run: seq<Event>, more: seq<Event>, o: Id)
    requires Legal(retries, run + more) && Legal(retries, run)
    ensures |Count(retries, run, o).launched| <= |Count(retries, run + more, o).launched|
  {
    if more == [] {
      assert run + more == run;
    } else {
      assert Before(run + more) == run + Before(more);
      LaunchesGrowAlong(retries, run, Before(more), o);
      RunSound(retries, Before(run + more));
      RunBounded(retries, Before(run + more), o);
      LaunchesGrow(After(retries, Before(run + more)), Count(retries, Before(run + more), o), Last(run + more), o);
    }
  }

  /** `valid` and `invalid` are absorbing, and the certificate is never replaced. */
  lemma {:induction false} FinalIsFinal(retries: int, run: seq<Event>, more: seq<Event>, o: Id, a: Id)
    requires Legal(retries, run + more) && Legal(retries, run)
    requires Sole(After(retries, run).db, o, a)
    requires |Count(retries, run + more, o).launched| <= 1
    requires After(retries, run).db.orders[o].status == Valid || After(retries, run).db.orders[o].status == Invalid
    ensures Sole(After(retries, run + more).db, o, a)
    ensures After(retries, run + more).db.orders[o] == After(retries, run).db.orders[o]
  {
    if more == [] {
      assert run + more == run;
    } else {
      var before := run + Before(more);
      assert Before(run + more) == before;
      var s, e := After(retries, before), Last(run + more);
      RunSound(retries, before);
      RunBounded(retries, before, o);
      LaunchesGrow(s, Count(retries, before, o), e, o);
      FinalIsFinal(retries, run, Before(more), o, a);
      RunPhase(retries, before, o, a);
      FinalStep(s, e, o, a, Count(retries, before, o).launched != map[]);
      AuthzsFixed(s, e, o);
    }
  }
}
