/** What requests and restarts do to the rows, and who asked for what the relay's tasks are doing. */
module OrderRequests {
  import opened Wrappers
  import opened OrderModel
  import opened OrderInvariants
  import opened OrderIssuance

  // ----- the rows

  /** A finalize request starts a claim, and nothing else, exactly if its sender owns the order and it is ready. */
  lemma FinalizeEffect(s: System, caller: Id, o: Id, csrDecodes: bool)
    ensures var s' := Apply(s, Finalize(caller, o, csrDecodes));
            if o in s.db.orders && s.db.orders[o].account == caller && s.db.orders[o].status == Ready
               && s.db.orders[o].identifiers != [] && csrDecodes
            then s'.db == s.db && s'.tasks == s.tasks[s.next := Claim(o)] && s'.next == s.next + 1
            else s' == s
  {
  }

  /** An acknowledgement by the owner starts a validator, and moves what is pending to processing. */
  lemma AcknowledgeEffect(s: System, caller: Id, a: Id)
    ensures var s' := Apply(s, Acknowledge(caller, a));
            if a in s.db.authzs && s.db.authzs[a].order in s.db.orders
               && s.db.orders[s.db.authzs[a].order].account == caller
               && (s.db.authzs[a].status == Pending || s.db.authzs[a].status == Processing)
            then
              var o := s.db.authzs[a].order;
              && s'.tasks == s.tasks[s.next := Validator(a, o)] && s'.next == s.next + 1
              && s'.db.authzs == s.db.authzs[a := s.db.authzs[a].(status := Processing)]
              && s'.db.orders == (if s.db.authzs[a].status == Pending && s.db.orders[o].status == Pending
                                  then s.db.orders[o := s.db.orders[o].(status := Processing)] else s.db.orders)
              && s'.db.accounts == s.db.accounts && s'.db.certs == s.db.certs
            else s' == s
  {
    if a in s.db.authzs && s.db.authzs[a].status == Processing {
      assert s.db.authzs[a].(status := Processing) == s.db.authzs[a];
      assert s.db.authzs[a := s.db.authzs[a]] == s.db.authzs;
    }
  }

  /** A restart ends every task and makes invalid what was processing; nothing else changes. */
  lemma RestartEffect(s: System)
    ensures var s' := Apply(s, Restart);
            && s'.tasks == map[] && s'.db.accounts == s.db.accounts && s'.db.certs == s.db.certs
            && s'.db.orders.Keys == s.db.orders.Keys && s'.db.authzs.Keys == s.db.authzs.Keys
            && (forall o | o in s.db.orders ::
                  if s.db.orders[o].status == Processing then s'.db.orders[o] == s.db.orders[o].(status := Invalid)
                  else s'.db.orders[o] == s.db.orders[o])
            && (forall a | a in s.db.authzs ::
                  if s.db.authzs[a].status == Processing then s'.db.authzs[a] == s.db.authzs[a].(status := Invalid)
                  else s'.db.authzs[a] == s.db.authzs[a])
  {
  }

  // ----- who asked

  /** The account sent a well-formed finalize request for the order. */
  ghost predicate AskedFor(run: seq<Event>, o: Id, account: Id) {
    exists k | 0 <= k < |run| :: run[k] == Finalize(account, o, true)
  }

  /** The account acknowledged the authorization. */
  ghost predicate AskedToProve(run: seq<Event>, a: Id, account: Id) {
    exists k | 0 <= k < |run| :: run[k] == Acknowledge(account, a)
  }

  /** The owner of the order asked for what the task is doing. */
  ghost predicate Asked(db: Database, run: seq<Event>, t: Task) {
    t.order in db.orders &&
    if IsValidator(t) then AskedToProve(run, t.authz, db.orders[t.order].account)
    else AskedFor(run, t.order, db.orders[t.order].account)
  }

  ghost predicate AllAsked(s: System, run: seq<Event>) {
    forall i | i in s.tasks :: Asked(s.db, run, s.tasks[i])
  }

  lemma RequestsKeepOwner(s: System, e: Event, o: Id)
    requires Sound(s) && Enabled(s, e) && o in s.db.orders && !e.Resume?
    ensures o in Apply(s, e).db.orders && Apply(s, e).db.orders[o].account == s.db.orders[o].account
  {
  }

  lemma ResumeKeepsOwner(s: System, i: nat, answer: Answer, o: Id)
    requires Sound(s) && CanResume(s, i, answer) && o in s.db.orders
    ensures var orders := ResumeStep(s, i, answer).db.orders; o in orders && orders[o].account == s.db.orders[o].account
  {
  }

  /** An order never changes hands. */
  lemma OwnerFixed(s: System, e: Event, o: Id)
    requires Sound(s) && Enabled(s, e) && o in s.db.orders
    ensures o in Apply(s, e).db.orders && Apply(s, e).db.orders[o].account == s.db.orders[o].account
  {
    if e.Resume? {
      ResumeKeepsOwner(s, e.task, e.answer, o);
    } else {
      RequestsKeepOwner(s, e, o);
    }
  }

  /** The two tasks are stages of the same work. */
  predicate SameWork(t: Task, t': Task) {
    t'.order == t.order && IsValidator(t') == IsValidator(t) && (IsValidator(t) ==> t'.authz == t.authz)
  }

  lemma ResumeContinues(s: System, i: nat, answer: Answer, j: nat)
    requires CanResume(s, i, answer) && j in ResumeStep(s, i, answer).tasks
    ensures j in s.tasks && SameWork(s.tasks[j], ResumeStep(s, i, answer).tasks[j])
  {
  }

  lemma AskedMore(db: Database, run: seq<Event>, e: Event, t: Task)
    requires Asked(db, run, t)
    ensures Asked(db, run + [e], t)
  {
    if IsValidator(t) {
      var k :| 0 <= k < |run| && run[k] == Acknowledge(db.orders[t.order].account, t.authz);
      assert (run + [e])[k] == run[k];
    } else {
      var k :| 0 <= k < |run| && run[k] == Finalize(db.orders[t.order].account, t.order, true);
      assert (run + [e])[k] == run[k];
    }
  }

  /** A task that a step starts was asked for by that step. */
  lemma NewTaskAsked(s: System, run: seq<Event>, e: Event, i: nat)
    requires Sound(s) && Enabled(s, e) && !e.Resume? && i in Apply(s, e).tasks && i !in s.tasks
    ensures Asked(Apply(s, e).db, run + [e], Apply(s, e).tasks[i])
  {
    assert (run + [e])[|run|] == e;
    if e.Finalize? {
      FinalizeEffect(s, e.caller, e.order, e.csrDecodes);
    } else if e.Acknowledge? {
      AcknowledgeEffect(s, e.caller, e.authz);
    }
  }

  lemma OldTasksKept(s: System, e: Event, i: nat)
    requires Sound(s) && Enabled(s, e) && !e.Resume? && i in Apply(s, e).tasks && i in s.tasks
    ensures Apply(s, e).tasks[i] == s.tasks[i]
  {
  }

  lemma StepAsked(s: System, run: seq<Event>, e: Event)
    requires Sound(s) && AllAsked(s, run) && Enabled(s, e)
    ensures AllAsked(Apply(s, e), run + [e])
  {
    var s' := Apply(s, e);
    forall i | i in s'.tasks ensures Asked(s'.db, run + [e], s'.tasks[i]) {
      if e.Resume? {
        ResumeContinues(s, e.task, e.answer, i);
      } else if i in s.tasks {
        OldTasksKept(s, e, i);
      } else {
        NewTaskAsked(s, run, e, i);
      }
      if i in s.tasks {
        AskedMore(s.db, run, e, s.tasks[i]);
        OwnerFixed(s, e, s.tasks[i].order);
      }
    }
  }

  lemma {:induction false} RunAsked(retries: int, run: seq<Event>)
    requires Legal(retries, run)
    ensures AllAsked(After(retries, run), run)
    decreases |run|
  {
    if run != [] {
      RunSound(retries, Before(run));
      RunAsked(retries, Before(run));
      StepAsked(After(retries, Before(run)), Before(run), Last(run));
      assert run == Before(run) + [Last(run)];
    }
  }

  /** Whatever validator is live, the account that owns the order acknowledged that very authorization. */
  lemma ValidatorWasAsked(retries: int, run: seq<Event>, i: nat)
    requires Legal(retries, run) && i in After(retries, run).tasks && IsValidator(After(retries, run).tasks[i])
    ensures var s, t := After(retries, run), After(retries, run).tasks[i];
            t.order in s.db.orders
            && exists k | 0 <= k < |run| :: run[k] == Acknowledge(s.db.orders[t.order].account, t.authz)
  {
    RunAsked(retries, run);
    assert Asked(After(retries, run).db, run, After(retries, run).tasks[i]);
  }

  /** Whenever an issuance is dispatched, the account that owns the order had asked to finalize that very order. */
  lemma DispatchWasAsked(retries: int, run: seq<Event>, o: Id)
    requires Legal(retries, run) && run != []
    requires Dispatches(After(retries, Before(run)), After(retries, run), o)
    ensures o in After(retries, run).db.orders
    ensures exists k | 0 <= k < |run| :: run[k] == Finalize(After(retries, run).db.orders[o].account, o, true)
  {
    RunAsked(retries, run);
    var s := After(retries, run);
    var i :| i in s.tasks && s.tasks[i] == Finalizer(o);
    assert Asked(s.db, run, s.tasks[i]);
  }
}
