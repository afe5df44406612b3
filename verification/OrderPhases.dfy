/** Orders with one authorization: no work is ever stuck, and with one validator the final statuses are final. */
module OrderPhases {
  import opened OrderModel
  import opened OrderInvariants
  import opened OrderIssuance

  predicate Sole(db: Database, o: Id, a: Id) {
    o in db.orders && AuthzsOf(db, o) == {a}
  }

  ghost predicate HasValidator(s: System, o: Id) {
    exists i | i in s.tasks :: ValidatorOf(s.tasks[i], o)
  }

  ghost predicate HasFinalizer(s: System, o: Id) {
    exists i | i in s.tasks :: FinalizerOf(s.tasks[i], o)
  }

  /** The step wrote no row of order `o` and moved no task of it. */
  ghost predicate Aloof(s: System, s': System, o: Id) {
    && o in s.db.orders && o in s'.db.orders && s'.db.orders[o] == s.db.orders[o]
    && (forall a | a in s.db.authzs && s.db.authzs[a].order == o ::
          a in s'.db.authzs && s'.db.authzs[a] == s.db.authzs[a])
    && AuthzsOf(s'.db, o) == AuthzsOf(s.db, o)
    && (forall i | i in s.tasks && s.tasks[i].order == o :: i in s'.tasks && s'.tasks[i] == s.tasks[i])
    && (forall i | i in s'.tasks && s'.tasks[i].order == o :: i in s.tasks && s'.tasks[i] == s.tasks[i])
  }

  predicate Concerns(s: System, e: Event, o: Id) {
    match e
    case Acknowledge(_, a) => OwnedAuthz(s.db, a, o)
    case Finalize(_, o', _) => o' == o
    case Resume(i, _) => i in s.tasks && s.tasks[i].order == o
    case Restart => true
    case _ => false
  }

  lemma RequestsAloof(s: System, e: Event, o: Id)
    requires Sound(s) && Enabled(s, e) && o in s.db.orders && !Concerns(s, e, o) && !e.Resume?
    ensures Aloof(s, Apply(s, e), o)
  {
    if e.Acknowledge? {
      AcknowledgeAloof(s, e.caller, e.authz, o);
    }
  }

  lemma AcknowledgeAloof(s: System, caller: Id, a: Id, o: Id)
    requires Sound(s) && o in s.db.orders && !OwnedAuthz(s.db, a, o)
    ensures Aloof(s, AcknowledgeStep(s, caller, a), o)
  {
  }

  lemma ValidatorsAloof(s: System, i: nat, answer: Answer, o: Id)
    requires Sound(s) && CanResume(s, i, answer) && o in s.db.orders && s.tasks[i].order != o
    requires IsValidator(s.tasks[i])
    ensures Aloof(s, ResumeStep(s, i, answer), o)
  {
    match s.tasks[i]
    case Validator(a, o') => OpenAloof(s, i, a, o', o);
    case Fetched(a, o', ok) => CloseAloof(s, i, a, o', ok, o);
    case _ =>
  }

  lemma OpenAloof(s: System, i: nat, a: Id, o': Id, o: Id)
    requires Sound(s) && o in s.db.orders && o' != o && i in s.tasks && s.tasks[i] == Validator(a, o')
    ensures Aloof(s, OpenStep(s, i, a, o'), o)
  {
    SameAuthzs(s.db, a, Invalid, o);
  }

  lemma CloseAloof(s: System, i: nat, a: Id, o': Id, ok: bool, o: Id)
    requires Sound(s) && o in s.db.orders && o' != o && i in s.tasks && s.tasks[i] == Fetched(a, o', ok)
    ensures Aloof(s, CloseStep(s, i, a, o', ok), o)
  {
    SameAuthzs(s.db, a, Valid, o);
    SameAuthzs(s.db, a, Invalid, o);
  }

  lemma FinalizersAloof(s: System, i: nat, answer: Answer, o: Id)
    requires Sound(s) && CanResume(s, i, answer) && o in s.db.orders && s.tasks[i].order != o
    requires !IsValidator(s.tasks[i])
    ensures Aloof(s, ResumeStep(s, i, answer), o)
  {
  }

  lemma StepAloof(s: System, e: Event, o: Id)
    requires Sound(s) && Enabled(s, e) && o in s.db.orders && !Concerns(s, e, o)
    ensures Aloof(s, Apply(s, e), o)
  {
    if e.Resume? {
      if IsValidator(s.tasks[e.task]) {
        ValidatorsAloof(s, e.task, e.answer, o);
      } else {
        FinalizersAloof(s, e.task, e.answer, o);
      }
    } else {
      RequestsAloof(s, e, o);
    }
  }

  lemma ValidatorsKeepAuthzs(s: System, i: nat, answer: Answer, o: Id)
    requires Sound(s) && CanResume(s, i, answer) && o in s.db.orders
    requires IsValidator(s.tasks[i])
    ensures o in ResumeStep(s, i, answer).db.orders
    ensures AuthzsOf(ResumeStep(s, i, answer).db, o) == AuthzsOf(s.db, o)
  {
    SameAuthzs(s.db, s.tasks[i].authz, Valid, o);
    SameAuthzs(s.db, s.tasks[i].authz, Invalid, o);
    ValidatorWrites(s, i, answer);
    ResumeKeepsOrders(s, i, answer);
  }

  /** What a validator's step can do to the authorizations. */
  lemma ValidatorWrites(s: System, i: nat, answer: Answer)
    requires Sound(s) && CanResume(s, i, answer)
    ensures IsValidator(s.tasks[i]) ==>
              var db, a := ResumeStep(s, i, answer).db, s.tasks[i].authz;
              a in s.db.authzs
              && (db.authzs == s.db.authzs || db.authzs == WithAuthzStatus(s.db, a, Valid).authzs
                  || db.authzs == WithAuthzStatus(s.db, a, Invalid).authzs)
  {
  }

  lemma FinalizerWrites(s: System, i: nat, answer: Answer)
    requires Sound(s) && CanResume(s, i, answer)
    ensures !IsValidator(s.tasks[i]) ==> ResumeStep(s, i, answer).db.authzs == s.db.authzs
  {
  }

  lemma AuthzsFixed(s: System, e: Event, o: Id)
    requires Sound(s) && Enabled(s, e) && o in s.db.orders
    ensures o in Apply(s, e).db.orders && AuthzsOf(Apply(s, e).db, o) == AuthzsOf(s.db, o)
  {
    match e
    case Resume(i, answer) =>
      if IsValidator(s.tasks[i]) {
        ValidatorsKeepAuthzs(s, i, answer, o);
      } else {
        FinalizerWrites(s, i, answer);
        ResumeKeepsOrders(s, i, answer);
      }
    case NewOrder(_, _, _, _, _, _) => RequestsAloof(s, e, o);
    case ImportOrder(_, _, _, _) => RequestsAloof(s, e, o);
    case Acknowledge(caller, a) => AcknowledgeKeepsAuthzs(s, caller, a, o);
    case Restart => RestartKeepsAuthzs(s, o);
    case _ =>
  }

  lemma AcknowledgeKeepsAuthzs(s: System, caller: Id, a: Id, o: Id)
    requires o in s.db.orders
    ensures var db := AcknowledgeStep(s, caller, a).db; o in db.orders && AuthzsOf(db, o) == AuthzsOf(s.db, o)
  {
    if a in s.db.authzs {
      SameAuthzs(s.db, a, Processing, o);
    }
  }

  lemma RestartKeepsAuthzs(s: System, o: Id)
    requires o in s.db.orders
    ensures o in RestartStep(s).db.orders && AuthzsOf(RestartStep(s).db, o) == AuthzsOf(s.db, o)
  {
  }

  // ----- no stuck work

  /** Some live validator was started for this very authorization. */
  ghost predicate Attended(s: System, a: Id) {
    exists i | i in s.tasks :: IsValidator(s.tasks[i]) && s.tasks[i].authz == a
  }

  ghost predicate AllAttended(s: System) {
    forall a | a in s.db.authzs && s.db.authzs[a].status == Processing :: Attended(s, a)
  }

  lemma RequestAttended(s: System, e: Event)
    requires Sound(s) && AllAttended(s) && Enabled(s, e) && !e.Resume? && !e.Acknowledge?
    ensures AllAttended(Apply(s, e))
  {
    assert !e.Restart? ==> forall i | i in s.tasks :: i in Apply(s, e).tasks && Apply(s, e).tasks[i] == s.tasks[i];
  }

  lemma AcknowledgeAttended(s: System, caller: Id, a: Id)
    requires Sound(s) && AllAttended(s)
    ensures AllAttended(AcknowledgeStep(s, caller, a))
  {
    var s' := AcknowledgeStep(s, caller, a);
    assert forall i | i in s.tasks :: i in s'.tasks && s'.tasks[i] == s.tasks[i];
    assert s' != s ==> s'.tasks[s.next] == Validator(a, s.db.authzs[a].order);
  }

  lemma ResumeAttended(s: System, i: nat, answer: Answer)
    requires Sound(s) && AllAttended(s) && CanResume(s, i, answer)
    ensures AllAttended(ResumeStep(s, i, answer))
  {
    var s' := ResumeStep(s, i, answer);
    KeepsAttending(s, i, answer);
    forall a | a in s'.db.authzs && s'.db.authzs[a].status == Processing ensures Attended(s', a) {
      var j :| j in s.tasks && IsValidator(s.tasks[j]) && s.tasks[j].authz == a;
      assert j in s'.tasks && IsValidator(s'.tasks[j]) && s'.tasks[j].authz == a;
    }
  }

  /** A step makes nothing processing, and leaves no processing authorization without the validators it had. */
  lemma KeepsAttending(s: System, i: nat, answer: Answer)
    requires Sound(s) && CanResume(s, i, answer)
    ensures var s' := ResumeStep(s, i, answer);
            && (forall a | a in s'.db.authzs && s'.db.authzs[a].status == Processing ::
                  a in s.db.authzs && s.db.authzs[a].status == Processing)
            && (forall j | j in s.tasks && IsValidator(s.tasks[j]) ::
                  var a := s.tasks[j].authz;
                  (j in s'.tasks && IsValidator(s'.tasks[j]) && s'.tasks[j].authz == a)
                  || (a in s'.db.authzs && s'.db.authzs[a].status != Processing))
  {
    ValidatorWrites(s, i, answer);
    FinalizerWrites(s, i, answer);
    OthersResume(s, i, answer);
  }

  /** A step moves no other task, and a validator it ends has decided its authorization. */
  lemma OthersResume(s: System, i: nat, answer: Answer)
    requires Sound(s) && CanResume(s, i, answer)
    ensures var s' := ResumeStep(s, i, answer);
            && (forall j | j in s.tasks && j != i :: j in s'.tasks && s'.tasks[j] == s.tasks[j])
            && (IsValidator(s.tasks[i]) && i in s'.tasks ==>
                  IsValidator(s'.tasks[i]) && s'.tasks[i].authz == s.tasks[i].authz)
            && (IsValidator(s.tasks[i]) && i !in s'.tasks ==>
                  s.tasks[i].authz in s'.db.authzs && s'.db.authzs[s.tasks[i].authz].status != Processing)
  {
  }

  /** With any number of authorizations and validators, one that is processing has a live validator of its own. */
  lemma {:induction false} RunAttended(retries: int, run: seq<Event>, a: Id)
    requires Legal(retries, run)
    ensures AllAttended(After(retries, run))
    ensures var s := After(retries, run);
            a in s.db.authzs && s.db.authzs[a].status == Processing ==> Attended(s, a)
    decreases |run|
  {
    if run != [] {
      var s, e := After(retries, Before(run)), Last(run);
      RunSound(retries, Before(run));
      RunAttended(retries, Before(run), a);
      match e
      case Acknowledge(caller, b) => AcknowledgeAttended(s, caller, b);
      case Resume(i, answer) => ResumeAttended(s, i, answer);
      case _ => RequestAttended(s, e);
    }
  }

  ghost predicate Busy(s: System, o: Id, a: Id) {
    && Sole(s.db, o, a)
    && a in s.db.authzs
    && (s.db.orders[o].status == Processing ==> HasValidator(s, o) || HasFinalizer(s, o))
  }

  lemma AloofBusy(s: System, s': System, o: Id, a: Id)
    requires Busy(s, o, a) && Aloof(s, s', o)
    ensures Busy(s', o, a)
  {
    assert a in AuthzsOf(s.db, o);
  }

  lemma RequestBusy(s: System, e: Event, o: Id, a: Id)
    requires Sound(s) && Busy(s, o, a) && Enabled(s, e) && Concerns(s, e, o) && !e.Resume?
    ensures Busy(Apply(s, e), o, a)
  {
    AuthzsFixed(s, e, o);
    assert forall b | OwnedAuthz(s.db, b, o) :: b in AuthzsOf(s.db, o);
    var s' := Apply(s, e);
    if e.Acknowledge? && s' != s {
      assert s'.tasks[s.next] == Validator(a, o);
    } else if e.Finalize? {
      assert forall i | i in s.tasks :: i in s'.tasks && s'.tasks[i] == s.tasks[i];
    }
  }

  lemma ValidatorBusy(s: System, i: nat, answer: Answer, o: Id, a: Id)
    requires Sound(s) && Busy(s, o, a) && CanResume(s, i, answer) && s.tasks[i].order == o
    requires IsValidator(s.tasks[i])
    ensures Busy(ResumeStep(s, i, answer), o, a)
  {
    AuthzsFixed(s, Resume(i, answer), o);
    forall b | b in s.db.authzs && s.db.authzs[b].order == o ensures b == a {
      assert b in AuthzsOf(s.db, o);
    }
    assert s.tasks[i].authz == a;
    var s' := ResumeStep(s, i, answer);
    if i in s'.tasks {
      assert ValidatorOf(s'.tasks[i], o);
    }
  }

  lemma FinalizerBusy(s: System, i: nat, answer: Answer, o: Id, a: Id)
    requires Sound(s) && Busy(s, o, a) && CanResume(s, i, answer) && s.tasks[i].order == o
    requires !IsValidator(s.tasks[i])
    ensures Busy(ResumeStep(s, i, answer), o, a)
  {
    var s' := ResumeStep(s, i, answer);
    assert AuthzsOf(s'.db, o) == AuthzsOf(s.db, o);
    assert forall j | j in s.tasks && j != i :: j in s'.tasks && s'.tasks[j] == s.tasks[j];
    if i in s'.tasks {
      assert FinalizerOf(s'.tasks[i], o);
    }
  }

  lemma StepBusy(s: System, e: Event, o: Id, a: Id)
    requires Sound(s) && Busy(s, o, a) && Enabled(s, e)
    ensures Busy(Apply(s, e), o, a)
  {
    if !Concerns(s, e, o) {
      StepAloof(s, e, o);
      AloofBusy(s, Apply(s, e), o, a);
    } else if e.Resume? {
      if IsValidator(s.tasks[e.task]) {
        ValidatorBusy(s, e.task, e.answer, o, a);
      } else {
        FinalizerBusy(s, e.task, e.answer, o, a);
      }
    } else {
      RequestBusy(s, e, o, a);
    }
  }

  lemma ResumeKeepsOrders(s: System, i: nat, answer: Answer)
    requires Sound(s) && CanResume(s, i, answer)
    ensures ResumeStep(s, i, answer).db.orders.Keys == s.db.orders.Keys
  {
  }

  /** The rows of an order appear in one step, all pending. */
  lemma Born(s: System, e: Event, o: Id)
    requires Sound(s) && Enabled(s, e) && o !in s.db.orders && o in Apply(s, e).db.orders
    ensures var s' := Apply(s, e);
            && s'.db.orders[o].status == Pending
            && (forall a | OwnedAuthz(s'.db, a, o) :: s'.db.authzs[a].status == Pending)
            && (forall i | i in s'.tasks :: s'.tasks[i].order != o)
            && s'.tasks == s.tasks
  {
    if e.Resume? {
      ResumeKeepsOrders(s, e.task, e.answer);
    }
  }

  lemma {:induction false} RunBusy(retries: int, run: seq<Event>, o: Id, a: Id)
    requires Legal(retries, run) && Sole(After(retries, run).db, o, a)
    ensures Busy(After(retries, run), o, a)
    decreases |run|
  {
    if run != [] {
      var s, e := After(retries, Before(run)), Last(run);
      RunSound(retries, Before(run));
      assert a in AuthzsOf(Apply(s, e).db, o);
      if o in s.db.orders {
        AuthzsFixed(s, e, o);
        RunBusy(retries, Before(run), o, a);
        StepBusy(s, e, o, a);
      } else {
        Born(s, e, o);
      }
    }
  }
}
