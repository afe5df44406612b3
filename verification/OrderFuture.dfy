/** What can still become of an order with one authorization: when it can be issued once more, and when it is final. */
module OrderFuture {
  import opened OrderModel
  import opened OrderInvariants
  import opened OrderIssuance
  import opened OrderPhases
  import opened OrderFinality
  import opened OrderDuplicates
  import opened Sizes

  // ----- what the present state holds

  /** There is a token to look for and an account to look for it with. */
  predicate Provable(db: Database, o: Id, a: Id) {
    o in db.orders && a in db.authzs && db.authzs[a].token.Some? && db.orders[o].account in db.accounts
  }

  predicate Acknowledgeable(db: Database, a: Id) {
    a in db.authzs && (db.authzs[a].status == Pending || db.authzs[a].status == Processing)
  }

  predicate MayPass(t: Task, o: Id) {
    t.order == o && (t.Fetching? || (t.Fetched? && t.ok))
  }

  /** A validator of the order, live or still to be started, can succeed. */
  ghost predicate CanPass(s: System, o: Id, a: Id) {
    || (exists i | i in s.tasks :: MayPass(s.tasks[i], o))
    || (Provable(s.db, o, a)
        && (Acknowledgeable(s.db, a) || exists i | i in s.tasks :: s.tasks[i] == Validator(a, o)))
  }

  /** An issuance of the order has still to be answered by the CA. */
  ghost predicate Issuing(s: System, o: Id) {
    exists i | i in s.tasks :: s.tasks[i] == Finalizer(o) || s.tasks[i] == Signing(o)
  }

  /** A certificate is stored and has still to be committed to the order. */
  ghost predicate Committing(s: System, o: Id) {
    exists i | i in s.tasks :: s.tasks[i].Storing? && s.tasks[i].order == o
  }

  predicate StatusIs(s: System, o: Id, status: Status) {
    o in s.db.orders && s.db.orders[o].status == status
  }

  // ----- what a step cannot bring about

  lemma AccountsFixed(s: System, e: Event, o: Id)
    requires Enabled(s, e) && o in s.db.orders
    ensures s.db.orders[o].account in Apply(s, e).db.accounts <==> s.db.orders[o].account in s.db.accounts
  {
  }

  lemma OthersCannotPass(s: System, e: Event, o: Id, a: Id)
    requires Sound(s) && Enabled(s, e) && Sole(s.db, o, a) && !CanPass(s, o, a) && !Concerns(s, e, o)
    ensures !CanPass(Apply(s, e), o, a)
  {
    SoleOwner(s, o, a);
    StepAloof(s, e, o);
    AccountsFixed(s, e, o);
  }

  lemma RequestsCannotPass(s: System, e: Event, o: Id, a: Id)
    requires Sound(s) && Enabled(s, e) && Sole(s.db, o, a) && !CanPass(s, o, a) && Concerns(s, e, o) && !e.Resume?
    ensures !CanPass(Apply(s, e), o, a)
  {
    SoleOwner(s, o, a);
  }

  lemma ResumeCannotPass(s: System, i: nat, answer: Answer, o: Id, a: Id)
    requires Sound(s) && CanResume(s, i, answer) && Sole(s.db, o, a) && !CanPass(s, o, a) && s.tasks[i].order == o
    ensures !CanPass(ResumeStep(s, i, answer), o, a)
  {
    SoleOwner(s, o, a);
    assert !MayPass(s.tasks[i], o);
    match s.tasks[i]
    case Validator(b, _) => assert b == a && !Provable(s.db, o, a);
    case Fetched(b, _, _) => assert b == a;
    case _ =>
  }

  lemma StepCannotPass(s: System, e: Event, o: Id, a: Id)
    requires Sound(s) && Enabled(s, e) && Sole(s.db, o, a) && !CanPass(s, o, a)
    ensures !CanPass(Apply(s, e), o, a)
  {
    if !Concerns(s, e, o) {
      OthersCannotPass(s, e, o, a);
    } else if e.Resume? {
      ResumeCannotPass(s, e.task, e.answer, o, a);
    } else {
      RequestsCannotPass(s, e, o, a);
    }
  }

  /** An order becomes ready by a success that completes its authorizations, and by nothing else. */
  lemma EntersReady(s: System, e: Event, o: Id)
    requires Sound(s) && Enabled(s, e) && o in s.db.orders
    ensures IsReady(Apply(s, e), o) ==> IsReady(s, o) || Completes(s, e, o)
  {
    if !Concerns(s, e, o) {
      StepAloof(s, e, o);
    } else if e.Resume? && s.tasks[e.task].Fetched? {
      CloseCompletes(s, e.task, o);
    }
  }

  lemma ChangesNeedTasks(s: System, e: Event, o: Id, a: Id)
    ensures Completes(s, e, o) ==> CanPass(s, o, a)
    ensures Completes(s, e, o) || Refuses(s, e, o) ==> HasValidator(s, o) || Issuing(s, o)
    ensures Commits(s, e, o) ==> Committing(s, o)
  {
    if Completes(s, e, o) {
      assert MayPass(s.tasks[e.task], o) && ValidatorOf(s.tasks[e.task], o);
    } else if Refuses(s, e, o) {
      assert ValidatorOf(s.tasks[e.task], o) || s.tasks[e.task] == Signing(o);
    }
  }

  lemma StepNotIssuing(s: System, e: Event, o: Id)
    requires Sound(s) && Enabled(s, e) && o in s.db.orders && !IsReady(s, o) && !Issuing(s, o)
    ensures !Issuing(Apply(s, e), o)
    ensures !Committing(s, o) ==> !Committing(Apply(s, e), o)
  {
    if !Concerns(s, e, o) {
      StepAloof(s, e, o);
    } else if e.Resume? {
      ResumeNotIssuing(s, e.task, e.answer, o);
    }
  }

  lemma ResumeNotIssuing(s: System, i: nat, answer: Answer, o: Id)
    requires CanResume(s, i, answer) && !IsReady(s, o) && !Issuing(s, o)
    ensures !Issuing(ResumeStep(s, i, answer), o)
    ensures !Committing(s, o) ==> !Committing(ResumeStep(s, i, answer), o)
  {
    assert s.tasks[i] != Finalizer(o) && s.tasks[i] != Signing(o);
  }

  lemma StepNoValidator(s: System, e: Event, o: Id, a: Id)
    requires Sound(s) && Enabled(s, e) && Sole(s.db, o, a) && !HasValidator(s, o) && !Acknowledgeable(s.db, a)
    ensures !HasValidator(Apply(s, e), o) && !Acknowledgeable(Apply(s, e).db, a)
  {
    SoleOwner(s, o, a);
    if !Concerns(s, e, o) {
      StepAloof(s, e, o);
    } else if e.Resume? {
      assert !ValidatorOf(s.tasks[e.task], o);
      FinalizerWrites(s, e.task, e.answer);
    }
  }

  // ----- claims have names

  /** A request passed the guard of finalize_order only with a name to ask for. */
  ghost predicate ClaimsNamed(s: System) {
    forall i | i in s.tasks && s.tasks[i].Claim? ::
      s.tasks[i].order in s.db.orders && s.db.orders[s.tasks[i].order].identifiers != []
  }

  lemma NamesFixed(s: System, e: Event, o: Id)
    requires Sound(s) && Enabled(s, e) && o in s.db.orders
    ensures o in Apply(s, e).db.orders && Apply(s, e).db.orders[o].identifiers == s.db.orders[o].identifiers
  {
    AuthzsFixed(s, e, o);
    if !Concerns(s, e, o) {
      StepAloof(s, e, o);
    }
  }

  lemma NewClaims(s: System, e: Event, i: nat)
    requires Sound(s) && Enabled(s, e) && i in Apply(s, e).tasks && Apply(s, e).tasks[i].Claim?
    ensures (i in s.tasks && s.tasks[i] == Apply(s, e).tasks[i])
            || (e.Finalize? && Apply(s, e).tasks[i].order in s.db.orders
                && s.db.orders[Apply(s, e).tasks[i].order].identifiers != [])
  {
  }

  lemma StepClaimsNamed(s: System, e: Event)
    requires Sound(s) && ClaimsNamed(s) && Enabled(s, e)
    ensures ClaimsNamed(Apply(s, e))
  {
    var s' := Apply(s, e);
    forall i | i in s'.tasks && s'.tasks[i].Claim?
      ensures s'.tasks[i].order in s'.db.orders && s'.db.orders[s'.tasks[i].order].identifiers != []
    {
      NewClaims(s, e, i);
      NamesFixed(s, e, s'.tasks[i].order);
    }
  }

  lemma {:induction false} RunClaimsNamed(retries: int, run: seq<Event>)
    requires Legal(retries, run)
    ensures ClaimsNamed(After(retries, run))
    decreases |run|
  {
    if run != [] {
      RunSound(retries, Before(run));
      RunClaimsNamed(retries, Before(run));
      StepClaimsNamed(After(retries, Before(run)), Last(run));
    }
  }

  // ----- what therefore never happens

  /** Nothing can dispatch the order any more. */
  ghost predicate Hopeless(s: System, o: Id, a: Id) {
    && Sole(s.db, o, a) && ClaimsNamed(s)
    && (s.db.orders[o].identifiers == [] || (!IsReady(s, o) && !CanPass(s, o, a)))
  }

  lemma StepHopeless(s: System, e: Event, o: Id, a: Id)
    requires Sound(s) && Enabled(s, e) && Hopeless(s, o, a)
    ensures Hopeless(Apply(s, e), o, a) && !Dispatches(s, Apply(s, e), o)
  {
    AuthzsFixed(s, e, o);
    NamesFixed(s, e, o);
    StepClaimsNamed(s, e);
    DispatchNeedsReady(s, e, o);
    if s.db.orders[o].identifiers != [] {
      StepCannotPass(s, e, o, a);
      EntersReady(s, e, o);
      ChangesNeedTasks(s, e, o, a);
    }
  }

  lemma {:induction false} HopelessForever(retries: int, run: seq<Event>, more: seq<Event>, o: Id, a: Id)
    requires Legal(retries, run + more) && Legal(retries, run) && Hopeless(After(retries, run), o, a)
    ensures Hopeless(After(retries, run + more), o, a)
    ensures Count(retries, run + more, o).dispatches == Count(retries, run, o).dispatches
  {
    if more == [] {
      assert run + more == run;
    } else {
      var before := run + Before(more);
      assert Before(run + more) == before;
      HopelessForever(retries, run, Before(more), o, a);
      RunSound(retries, before);
      StepHopeless(After(retries, before), Last(run + more), o, a);
    }
  }

  /** Nothing that could change the status is under way. */
  ghost predicate Undisturbed(s: System, o: Id, a: Id, status: Status) {
    && Sole(s.db, o, a) && StatusIs(s, o, status) && !Issuing(s, o)
    && if status == Valid then !HasValidator(s, o) && !Acknowledgeable(s.db, a)
       else !CanPass(s, o, a) && !Committing(s, o)
  }

  lemma StepUndisturbed(s: System, e: Event, o: Id, a: Id, status: Status)
    requires Sound(s) && Enabled(s, e) && Final(status) && Undisturbed(s, o, a, status)
    ensures Undisturbed(Apply(s, e), o, a, status)
  {
    AuthzsFixed(s, e, o);
    StepNotIssuing(s, e, o);
    LeavesFinal(s, e, o);
    if status == Valid {
      StepNoValidator(s, e, o, a);
      ChangesNeedTasks(s, e, o, a);
    } else {
      StepCannotPass(s, e, o, a);
      ChangesNeedTasks(s, e, o, a);
    }
  }

  lemma {:induction false} UndisturbedForever(retries: int, run: seq<Event>, more: seq<Event>, o: Id, a: Id,
                                              status: Status)
    requires Legal(retries, run + more) && Legal(retries, run)
    requires Final(status) && Undisturbed(After(retries, run), o, a, status)
    ensures Undisturbed(After(retries, run + more), o, a, status)
  {
    if more == [] {
      assert run + more == run;
    } else {
      assert Before(run + more) == run + Before(more);
      UndisturbedForever(retries, run, Before(more), o, a, status);
      RunSound(retries, Before(run + more));
      StepUndisturbed(After(retries, Before(run + more)), Last(run + more), o, a, status);
    }
  }

  // ----- what still can happen

  lemma LeadsSound(retries: int, run: seq<Event>, o: Id, s: System, d: nat)
    requires Leads(retries, run, o, s, d)
    ensures Sound(s)
  {
    var more := Unsealed(retries, run, o, s, d);
    RunSound(retries, run + more);
  }

  /** A success that is only to be committed makes the order ready. */
  lemma FetchedReadies(retries: int, run: seq<Event>, o: Id, a: Id, s: System, d: nat, i: nat) returns (s': System)
    requires Leads(retries, run, o, s, d) && Sole(s.db, o, a)
    requires i in s.tasks && s.tasks[i] == Fetched(a, o, true)
    ensures Leads(retries, run, o, s', d) && s'.db.orders == s.db.orders[o := s.db.orders[o].(status := Ready)]
  {
    LeadsSound(retries, run, o, s, d);
    LateSuccess(s, i, o, a);
    s' := Goes(retries, run, o, s, d, Resume(i, Proceed));
  }

  lemma FetchingReadies(retries: int, run: seq<Event>, o: Id, a: Id, s: System, d: nat, i: nat) returns (s': System)
    requires Leads(retries, run, o, s, d) && Sole(s.db, o, a)
    requires i in s.tasks && s.tasks[i].Fetching? && s.tasks[i].authz == a && s.tasks[i].order == o
    ensures Leads(retries, run, o, s', d) && s'.db.orders == s.db.orders[o := s.db.orders[o].(status := Ready)]
  {
    s' := Goes(retries, run, o, s, d, Resume(i, if s.tasks[i].left == 0 then Proceed else AttemptMatched));
    s' := FetchedReadies(retries, run, o, a, s', d, i);
  }

  lemma ValidatorReadies(retries: int, run: seq<Event>, o: Id, a: Id, s: System, d: nat, i: nat) returns (s': System)
    requires Leads(retries, run, o, s, d) && Sole(s.db, o, a) && Provable(s.db, o, a)
    requires i in s.tasks && s.tasks[i] == Validator(a, o)
    ensures Leads(retries, run, o, s', d) && s'.db.orders == s.db.orders[o := s.db.orders[o].(status := Ready)]
  {
    s' := Goes(retries, run, o, s, d, Resume(i, Proceed));
    s' := FetchingReadies(retries, run, o, a, s', d, i);
  }

  lemma Acknowledged(s: System, o: Id, a: Id)
    requires Sole(s.db, o, a) && Acknowledgeable(s.db, a)
    ensures var s' := AcknowledgeStep(s, s.db.orders[o].account, a);
            && Sole(s'.db, o, a) && (Provable(s'.db, o, a) <==> Provable(s.db, o, a))
            && s.next in s'.tasks && s'.tasks[s.next] == Validator(a, o)
            && s'.db.orders[o].identifiers == s.db.orders[o].identifiers
  {
    SoleOwner(s, o, a);
    var s' := AcknowledgeStep(s, s.db.orders[o].account, a);
    assert AuthzsOf(s'.db, o) == AuthzsOf(s.db, o);
  }

  /** If a validator can succeed, the order can become ready. */
  lemma CanBeReady(retries: int, run: seq<Event>, o: Id, a: Id, s: System, d: nat) returns (s': System)
    requires Leads(retries, run, o, s, d) && Sole(s.db, o, a) && CanPass(s, o, a)
    ensures Leads(retries, run, o, s', d) && IsReady(s', o)
    ensures s'.db.orders[o].identifiers == s.db.orders[o].identifiers
  {
    SoleOwner(s, o, a);
    if i :| i in s.tasks && MayPass(s.tasks[i], o) {
      ValidatorForSole(retries, run, o, a, s, d, i);
      if s.tasks[i].Fetching? {
        s' := FetchingReadies(retries, run, o, a, s, d, i);
      } else {
        s' := FetchedReadies(retries, run, o, a, s, d, i);
      }
    } else if i :| i in s.tasks && s.tasks[i] == Validator(a, o) {
      s' := ValidatorReadies(retries, run, o, a, s, d, i);
    } else {
      Acknowledged(s, o, a);
      s' := Goes(retries, run, o, s, d, Acknowledge(s.db.orders[o].account, a));
      s' := ValidatorReadies(retries, run, o, a, s', d, s.next);
    }
  }

  lemma ValidatorForSole(retries: int, run: seq<Event>, o: Id, a: Id, s: System, d: nat, i: nat)
    requires Leads(retries, run, o, s, d) && Sole(s.db, o, a) && i in s.tasks && ValidatorOf(s.tasks[i], o)
    ensures s.tasks[i].authz == a
  {
    LeadsSound(retries, run, o, s, d);
    SoleOwner(s, o, a);
  }

  lemma FinalizerAnswers(retries: int, run: seq<Event>, o: Id, s: System, d: nat) returns (s': System, i: nat)
    requires Leads(retries, run, o, s, d) && Issuing(s, o) && o in s.db.orders
    ensures Leads(retries, run, o, s', d) && i in s'.tasks && s'.tasks[i] == Signing(o) && s'.db == s.db
  {
    i :| i in s.tasks && (s.tasks[i] == Finalizer(o) || s.tasks[i] == Signing(o));
    s' := s;
    if s.tasks[i] == Finalizer(o) {
      s' := Goes(retries, run, o, s, d, Resume(i, Proceed));
    }
  }

  /** An issuance under way can fail. */
  lemma CanFail(retries: int, run: seq<Event>, o: Id, s: System, d: nat) returns (s': System)
    requires Leads(retries, run, o, s, d) && Issuing(s, o) && o in s.db.orders
    ensures Leads(retries, run, o, s', d) && StatusIs(s', o, Invalid)
  {
    var i: nat;
    s', i := FinalizerAnswers(retries, run, o, s, d);
    s' := Goes(retries, run, o, s', d, Resume(i, SignFailed));
  }

  lemma CanCommit(retries: int, run: seq<Event>, o: Id, s: System, d: nat) returns (s': System)
    requires Leads(retries, run, o, s, d) && Committing(s, o) && o in s.db.orders
    ensures Leads(retries, run, o, s', d) && StatusIs(s', o, Valid)
  {
    var i :| i in s.tasks && s.tasks[i].Storing? && s.tasks[i].order == o;
    s' := Goes(retries, run, o, s, d, Resume(i, Proceed));
  }

  /** An issuance under way can succeed. */
  lemma CanSucceed(retries: int, run: seq<Event>, o: Id, s: System, d: nat) returns (s': System)
    requires Leads(retries, run, o, s, d) && Issuing(s, o) && o in s.db.orders
    ensures Leads(retries, run, o, s', d) && StatusIs(s', o, Valid)
  {
    var i: nat;
    s', i := FinalizerAnswers(retries, run, o, s, d);
    var c := Unused(s'.db.certs.Keys);
    s' := Goes(retries, run, o, s', d, Resume(i, Signed(c, "chain")));
    assert s'.tasks[i] == Storing(o, c);
    s' := CanCommit(retries, run, o, s', d);
  }

  /** A validator that has nothing to prove the name with, or did not prove it, makes the order invalid. */
  lemma CanRefuse(retries: int, run: seq<Event>, o: Id, a: Id, s: System, d: nat, i: nat) returns (s': System)
    requires Leads(retries, run, o, s, d) && Sole(s.db, o, a) && i in s.tasks
    requires s.tasks[i] == Fetched(a, o, false) || (s.tasks[i] == Validator(a, o) && !Provable(s.db, o, a))
    ensures Leads(retries, run, o, s', d) && StatusIs(s', o, Invalid)
  {
    SoleOwner(s, o, a);
    s' := Goes(retries, run, o, s, d, Resume(i, Proceed));
  }

  /** A validator of the order, live or still to be started, can always take it out of `valid`. */
  lemma CanUnvalidate(retries: int, run: seq<Event>, o: Id, a: Id, s: System, d: nat) returns (s': System)
    requires Leads(retries, run, o, s, d) && Sole(s.db, o, a) && (HasValidator(s, o) || Acknowledgeable(s.db, a))
    ensures Leads(retries, run, o, s', d) && !StatusIs(s', o, Valid)
  {
    if CanPass(s, o, a) {
      s' := CanBeReady(retries, run, o, a, s, d);
    } else if HasValidator(s, o) {
      var i :| i in s.tasks && ValidatorOf(s.tasks[i], o);
      ValidatorForSole(retries, run, o, a, s, d, i);
      assert !MayPass(s.tasks[i], o);
      s' := CanRefuse(retries, run, o, a, s, d, i);
    } else {
      Acknowledged(s, o, a);
      s' := Goes(retries, run, o, s, d, Acknowledge(s.db.orders[o].account, a));
      s' := CanRefuse(retries, run, o, a, s', d, s.next);
    }
  }

  // ----- exactly

  ghost predicate IssuedLater(retries: int, run: seq<Event>, o: Id)
    requires Legal(retries, run)
  {
    exists more :: Legal(retries, run + more)
                   && Count(retries, run + more, o).dispatches > Count(retries, run, o).dispatches
  }

  /** The order keeps the status in every continuation. */
  ghost predicate Lasts(retries: int, run: seq<Event>, o: Id, status: Status) {
    forall more :: Legal(retries, run + more) ==> StatusIs(After(retries, run + more), o, status)
  }

  lemma Now(retries: int, run: seq<Event>, o: Id)
    requires Legal(retries, run)
    ensures Leads(retries, run, o, After(retries, run), Count(retries, run, o).dispatches)
  {
    assert run + [] == run;
    assert LeadsBy(retries, run, [], o, After(retries, run), Count(retries, run, o).dispatches);
  }

  lemma ReadyIsIssued(retries: int, run: seq<Event>, o: Id, s: System)
    requires Legal(retries, run) && Leads(retries, run, o, s, Count(retries, run, o).dispatches)
    requires IsReady(s, o) && s.db.orders[o].identifiers != []
    ensures IssuedLater(retries, run, o)
  {
    var more := Unsealed(retries, run, o, s, Count(retries, run, o).dispatches);
    ReadyIssues(retries, run + more, o);
    var e, e' := Finalize(s.db.orders[o].account, o, true), Resume(s.next, Proceed);
    Regrouped(run, more, e, e');
    ContinuesBy(retries, run, more + [e] + [e'], o);
  }

  lemma Regrouped(run: seq<Event>, more: seq<Event>, e: Event, e': Event)
    ensures run + (more + [e] + [e']) == run + more + [e] + [e']
  {
  }

  lemma ContinuesBy(retries: int, run: seq<Event>, more: seq<Event>, o: Id)
    requires Legal(retries, run) && Legal(retries, run + more)
    requires Count(retries, run + more, o).dispatches > Count(retries, run, o).dispatches
    ensures IssuedLater(retries, run, o)
  {
  }

  /**
   An order can be issued once more exactly when it has a name and is ready or can be made so: a validator that is
   live, or that an acknowledgement would still start, can succeed.
   */
  lemma IssuedLaterExactly(retries: int, run: seq<Event>, o: Id, a: Id)
    requires Legal(retries, run) && Sole(After(retries, run).db, o, a)
    ensures var s := After(retries, run);
            IssuedLater(retries, run, o) <==> s.db.orders[o].identifiers != [] && (IsReady(s, o) || CanPass(s, o, a))
  {
    var s := After(retries, run);
    RunClaimsNamed(retries, run);
    if Hopeless(s, o, a) {
      forall more | Legal(retries, run + more)
        ensures Count(retries, run + more, o).dispatches == Count(retries, run, o).dispatches
      {
        HopelessForever(retries, run, more, o, a);
      }
    } else {
      Now(retries, run, o);
      var ready := s;
      if !IsReady(s, o) {
        ready := CanBeReady(retries, run, o, a, s, Count(retries, run, o).dispatches);
      }
      ReadyIsIssued(retries, run, o, ready);
    }
  }

  lemma Leaves(retries: int, run: seq<Event>, o: Id, s: System, d: nat, status: Status)
    requires Leads(retries, run, o, s, d) && !StatusIs(s, o, status)
    ensures !Lasts(retries, run, o, status)
  {
    var more := Unsealed(retries, run, o, s, d);
    assert Legal(retries, run + more);
  }

  /** A valid order stays valid exactly when no validator is live or can be started and no issuance is under way. */
  lemma ValidLastsExactly(retries: int, run: seq<Event>, o: Id, a: Id)
    requires Legal(retries, run) && Sole(After(retries, run).db, o, a) && StatusIs(After(retries, run), o, Valid)
    ensures var s := After(retries, run);
            Lasts(retries, run, o, Valid) <==> !HasValidator(s, o) && !Acknowledgeable(s.db, a) && !Issuing(s, o)
  {
    var s := After(retries, run);
    if Undisturbed(s, o, a, Valid) {
      forall more | Legal(retries, run + more) ensures StatusIs(After(retries, run + more), o, Valid) {
        UndisturbedForever(retries, run, more, o, a, Valid);
      }
    } else {
      Here(retries, run, o);
      var s': System;
      if Issuing(s, o) {
        s' := CanFail(retries, run, o, s, 0);
      } else {
        s' := CanUnvalidate(retries, run, o, a, s, 0);
      }
      Leaves(retries, run, o, s', 0, Valid);
    }
  }

  /** An invalid order stays invalid exactly when no validator can succeed and no issuance is under way or stored. */
  lemma InvalidLastsExactly(retries: int, run: seq<Event>, o: Id, a: Id)
    requires Legal(retries, run) && Sole(After(retries, run).db, o, a) && StatusIs(After(retries, run), o, Invalid)
    ensures var s := After(retries, run);
            Lasts(retries, run, o, Invalid) <==> !CanPass(s, o, a) && !Issuing(s, o) && !Committing(s, o)
  {
    var s := After(retries, run);
    if Undisturbed(s, o, a, Invalid) {
      forall more | Legal(retries, run + more) ensures StatusIs(After(retries, run + more), o, Invalid) {
        UndisturbedForever(retries, run, more, o, a, Invalid);
      }
    } else {
      Here(retries, run, o);
      var s': System;
      if CanPass(s, o, a) {
        s' := CanBeReady(retries, run, o, a, s, 0);
      } else if Issuing(s, o) {
        s' := CanSucceed(retries, run, o, s, 0);
      } else {
        s' := CanCommit(retries, run, o, s, 0);
      }
      Leaves(retries, run, o, s', 0, Invalid);
    }
  }
}
