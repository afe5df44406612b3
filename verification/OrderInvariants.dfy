/** What every step of the order protocol keeps, and what therefore holds after every run. */
module OrderInvariants {
  import opened Wrappers
  import opened OrderModel

  predicate TaskRefers(db: Database, t: Task) {
    match t
    case Validator(a, o) => o in db.orders && OwnedAuthz(db, a, o)
    case Fetching(a, o, _) => o in db.orders && OwnedAuthz(db, a, o)
    case Fetched(a, o, _) => o in db.orders && OwnedAuthz(db, a, o)
    case Claim(o) => o in db.orders
    case Finalizer(o) => o in db.orders
    case Signing(o) => o in db.orders
    case Storing(o, c) => o in db.orders && c in db.certs && db.certs[c].order == o
  }

  /** No task and no row names a row that does not exist: the "row not found" branches are never taken. */
  ghost predicate Refers(s: System) {
    && (forall i | i in s.tasks :: i < s.next && TaskRefers(s.db, s.tasks[i]))
    && (forall a | a in s.db.authzs :: s.db.authzs[a].order in s.db.orders)
    && (forall c | c in s.db.certs :: s.db.certs[c].order in s.db.orders)
  }

  ghost predicate ReadyMeansAuthorized(s: System) {
    forall o | o in s.db.orders :: s.db.orders[o].status == Ready ==> AllValid(s.db, o)
  }

  predicate HasOwnCert(db: Database, o: Id)
    requires o in db.orders
  {
    db.orders[o].certId.Some? && db.orders[o].certId.value in db.certs && db.certs[db.orders[o].certId.value].order == o
  }

  ghost predicate ValidMeansIssued(s: System) {
    forall o | o in s.db.orders ::
      (s.db.orders[o].certId.Some? ==> HasOwnCert(s.db, o)) && (s.db.orders[o].status == Valid ==> HasOwnCert(s.db, o))
  }

  predicate Unreferenced(db: Database, c: Id) {
    forall o | o in db.orders :: db.orders[o].certId != Some(c)
  }

  /** Between its two commits a certificate is referenced by nothing and held by one task. */
  ghost predicate StoredIsPrivate(s: System) {
    && (forall i | i in s.tasks && s.tasks[i].Storing? :: Unreferenced(s.db, s.tasks[i].cert))
    && (forall i, j | i in s.tasks && j in s.tasks && s.tasks[i].Storing? && s.tasks[j].Storing? ::
          s.tasks[i].cert == s.tasks[j].cert ==> i == j)
  }

  ghost predicate Sound(s: System) {
    Refers(s) && ReadyMeansAuthorized(s) && ValidMeansIssued(s) && StoredIsPrivate(s)
  }

  lemma NewOrderSound(s: System, e: Event)
    requires Sound(s) && e.NewOrder? && Enabled(s, e)
    ensures Sound(NewOrderStep(s, e))
  {
  }

  lemma ImportOrderSound(s: System, e: Event)
    requires Sound(s) && e.ImportOrder? && Enabled(s, e)
    ensures Sound(ImportOrderStep(s, e))
  {
  }

  lemma AcknowledgeRefers(s: System, caller: Id, a: Id)
    requires Refers(s)
    ensures Refers(AcknowledgeStep(s, caller, a))
  {
  }

  lemma AcknowledgeSound(s: System, caller: Id, a: Id)
    requires Sound(s)
    ensures Sound(AcknowledgeStep(s, caller, a))
  {
    AcknowledgeRefers(s, caller, a);
  }

  lemma FinalizeSound(s: System, caller: Id, o: Id, d: bool)
    requires Sound(s)
    ensures Sound(FinalizeStep(s, caller, o, d))
  {
  }

  lemma OpenRefers(s: System, i: nat, a: Id, o: Id)
    requires Refers(s) && i in s.tasks && s.tasks[i] == Validator(a, o)
    ensures Refers(OpenStep(s, i, a, o))
  {
  }

  lemma OpenSound(s: System, i: nat, a: Id, o: Id)
    requires Sound(s) && i in s.tasks && s.tasks[i] == Validator(a, o)
    ensures Sound(OpenStep(s, i, a, o))
  {
    OpenRefers(s, i, a, o);
  }

  lemma FetchSound(s: System, i: nat, a: Id, o: Id, left: nat, answer: Answer)
    requires Sound(s) && i in s.tasks && s.tasks[i] == Fetching(a, o, left)
    ensures Sound(FetchStep(s, i, a, o, left, answer))
  {
  }

  lemma CloseRefers(s: System, i: nat, a: Id, o: Id, ok: bool)
    requires Refers(s) && i in s.tasks && s.tasks[i] == Fetched(a, o, ok)
    ensures Refers(CloseStep(s, i, a, o, ok))
  {
  }

  lemma CloseSound(s: System, i: nat, a: Id, o: Id, ok: bool)
    requires Sound(s) && i in s.tasks && s.tasks[i] == Fetched(a, o, ok)
    ensures Sound(CloseStep(s, i, a, o, ok))
  {
    CloseRefers(s, i, a, o, ok);
  }

  lemma ClaimSound(s: System, i: nat, o: Id)
    requires Sound(s) && i in s.tasks && s.tasks[i] == Claim(o)
    ensures Sound(ClaimStep(s, i, o))
  {
  }

  lemma StartSound(s: System, i: nat, o: Id)
    requires Sound(s) && i in s.tasks && s.tasks[i] == Finalizer(o)
    ensures Sound(StartStep(s, i, o))
  {
  }

  lemma SignRefers(s: System, i: nat, o: Id, answer: Answer)
    requires Refers(s) && i in s.tasks && s.tasks[i] == Signing(o) && CanResume(s, i, answer)
    ensures Refers(SignStep(s, i, o, answer))
  {
  }

  lemma SignSound(s: System, i: nat, o: Id, answer: Answer)
    requires Sound(s) && i in s.tasks && s.tasks[i] == Signing(o) && CanResume(s, i, answer)
    ensures Sound(SignStep(s, i, o, answer))
  {
    SignRefers(s, i, o, answer);
  }

  lemma CommitSound(s: System, i: nat, o: Id, c: Id)
    requires Sound(s) && i in s.tasks && s.tasks[i] == Storing(o, c)
    ensures Sound(CommitStep(s, i, o, c))
  {
  }

  lemma RestartSound(s: System)
    requires Sound(s)
    ensures Sound(RestartStep(s))
  {
  }

  lemma ResumeSound(s: System, i: nat, answer: Answer)
    requires Sound(s) && CanResume(s, i, answer)
    ensures Sound(ResumeStep(s, i, answer))
  {
    match s.tasks[i]
    case Validator(a, o) => OpenSound(s, i, a, o);
    case Fetching(a, o, left) => FetchSound(s, i, a, o, left, answer);
    case Fetched(a, o, ok) => CloseSound(s, i, a, o, ok);
    case Claim(o) => ClaimSound(s, i, o);
    case Finalizer(o) => StartSound(s, i, o);
    case Signing(o) => SignSound(s, i, o, answer);
    case Storing(o, c) => CommitSound(s, i, o, c);
  }

  lemma StepSound(s: System, e: Event)
    requires Sound(s) && Enabled(s, e)
    ensures Sound(Apply(s, e))
  {
    match e
    case NewAccount(_) =>
    case NewOrder(_, _, _, _, _, _) => NewOrderSound(s, e);
    case ImportOrder(_, _, _, _) => ImportOrderSound(s, e);
    case Acknowledge(caller, a) => AcknowledgeSound(s, caller, a);
    case Finalize(caller, o, csrDecodes) => FinalizeSound(s, caller, o, csrDecodes);
    case Resume(i, answer) => ResumeSound(s, i, answer);
    case Restart => RestartSound(s);
  }

  lemma {:induction false} RunSound(retries: int, run: seq<Event>)
    requires Legal(retries, run)
    ensures Sound(After(retries, run))
    decreases |run|
  {
    if run != [] {
      RunSound(retries, Before(run));
      StepSound(After(retries, Before(run)), Last(run));
    }
  }

  // ----- after every run

  /** A ready order has all of its authorizations valid, and a valid one names its own stored certificate. */
  lemma ReadyAndValidOrders(retries: int, run: seq<Event>, o: Id)
    requires Legal(retries, run) && o in After(retries, run).db.orders
    ensures var db := After(retries, run).db;
            && (db.orders[o].status == Ready ==>
                  forall a | a in db.authzs && db.authzs[a].order == o :: db.authzs[a].status == Valid)
            && (db.orders[o].status == Valid ==> db.orders[o].certId.Some?)
            && (db.orders[o].certId.Some? ==>
                  db.orders[o].certId.value in db.certs && db.certs[db.orders[o].certId.value].order == o)
  {
    RunSound(retries, run);
  }

  /** Stored, referenced by no order, and held by no task that could still reference it. */
  ghost predicate Orphan(s: System, c: Id) {
    && c in s.db.certs
    && Unreferenced(s.db, c)
    && forall i | i in s.tasks && s.tasks[i].Storing? :: s.tasks[i].cert != c
  }

  lemma OrphanKept(s: System, e: Event, c: Id)
    requires Sound(s) && Enabled(s, e) && Orphan(s, c)
    ensures Orphan(Apply(s, e), c)
  {
    if e.Resume? {
      ResumeKeepsOrphan(s, e.task, e.answer, c);
    }
  }

  lemma ResumeKeepsOrphan(s: System, i: nat, answer: Answer, c: Id)
    requires Sound(s) && CanResume(s, i, answer) && Orphan(s, c)
    ensures Orphan(ResumeStep(s, i, answer), c)
  {
    if s.tasks[i].Storing? {
      assert s.tasks[i].cert != c;
    }
  }

  lemma {:induction false} LegalPrefix(retries: int, run: seq<Event>, more: seq<Event>)
    requires Legal(retries, run + more)
    ensures Legal(retries, run)
  {
    if more == [] {
      assert run + more == run;
    } else {
      assert Before(run + more) == run + Before(more);
      LegalPrefix(retries, run, Before(more));
    }
  }

  lemma {:induction false} OrphanForever(retries: int, run: seq<Event>, more: seq<Event>, c: Id)
    requires Legal(retries, run + more) && Legal(retries, run) && Orphan(After(retries, run), c)
    ensures Orphan(After(retries, run + more), c)
  {
    if more == [] {
      assert run + more == run;
    } else {
      assert Before(run + more) == run + Before(more);
      OrphanForever(retries, run, Before(more), c);
      RunSound(retries, Before(run + more));
      OrphanKept(After(retries, Before(run + more)), Last(run + more), c);
    }
  }

  /** A crash between store_cert's commit and the order's leaves a certificate nothing ever refers to. */
  lemma CrashBetweenCommits(retries: int, run: seq<Event>, i: nat, more: seq<Event>)
    requires Legal(retries, run + [Restart] + more) && Legal(retries, run)
    requires i in After(retries, run).tasks && After(retries, run).tasks[i].Storing?
    ensures var c := After(retries, run).tasks[i].cert;
            var db := After(retries, run + [Restart] + more).db;
            c in db.certs && Unreferenced(db, c)
  {
    RunSound(retries, run);
    var c := After(retries, run).tasks[i].cert;
    assert Before(run + [Restart]) == run;
    LegalPrefix(retries, run + [Restart], more);
    assert Orphan(After(retries, run + [Restart]), c);
    OrphanForever(retries, run + [Restart], more, c);
  }
}
