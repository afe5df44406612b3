/** How often an order can be issued, and when its final statuses are final. */
module OrderIssuance {
  import opened OrderModel
  import opened OrderInvariants
  import opened Sizes

  /** What an observer of the run has counted for one order. */
  datatype Tally = Tally(
    launched: map<nat, Id>,  // validators started for it, and the authorization each was started for
    succeeded: set<nat>,     // those whose second session committed a success
    proved: set<Id>,         // authorizations such a success was committed for
    entries: nat,            // times it became ready
    dispatches: nat)         // issuances handed to the background worker

  predicate IsReady(s: System, o: Id) {
    o in s.db.orders && s.db.orders[o].status == Ready
  }

  predicate IsValidator(t: Task) {
    t.Validator? || t.Fetching? || t.Fetched?
  }

  predicate ValidatorOf(t: Task, o: Id) {
    IsValidator(t) && t.order == o
  }

  predicate FinalizerOf(t: Task, o: Id) {
    (t.Finalizer? || t.Signing? || t.Storing?) && t.order == o
  }

  function Launches(s: System, s': System, o: Id): map<nat, Id> {
    map i | i in s'.tasks && i !in s.tasks && s'.tasks[i].Validator? && s'.tasks[i].order == o :: s'.tasks[i].authz
  }

  predicate Succeeds(s: System, e: Event, o: Id) {
    e.Resume? && e.task in s.tasks && s.tasks[e.task].Fetched? && s.tasks[e.task].ok && s.tasks[e.task].order == o
  }

  predicate Dispatches(s: System, s': System, o: Id) {
    exists i | i in s'.tasks :: s'.tasks[i] == Finalizer(o) && !(i in s.tasks && s.tasks[i] == Finalizer(o))
  }

  ghost function Observe(t: Tally, s: System, e: Event, s': System, o: Id): Tally {
    Tally(
      t.launched + Launches(s, s', o),
      if Succeeds(s, e, o) then t.succeeded + {e.task} else t.succeeded,
      if Succeeds(s, e, o) then t.proved + {s.tasks[e.task].authz} else t.proved,
      if !IsReady(s, o) && IsReady(s', o) then t.entries + 1 else t.entries,
      if Dispatches(s, s', o) then t.dispatches + 1 else t.dispatches)
  }

  ghost function Count(retries: int, run: seq<Event>, o: Id): Tally
    requires Legal(retries, run)
    decreases |run|
  {
    if run == [] then Tally(map[], {}, {}, 0, 0) else
    Observe(Count(retries, Before(run), o), After(retries, Before(run)), Last(run), After(retries, run), o)
  }

  ghost predicate Started(s: System, t: Tally, o: Id) {
    && (forall i | i in t.launched :: i < s.next && t.launched[i] in AuthzsOf(s.db, o))
    && (forall i | i in s.tasks && ValidatorOf(s.tasks[i], o) :: i in t.launched && i !in t.succeeded)
    && t.succeeded <= t.launched.Keys
  }

  ghost predicate Proved(db: Database, t: Tally, o: Id) {
    && t.proved <= AuthzsOf(db, o)
    && (forall a | OwnedAuthz(db, a, o) && db.authzs[a].status == Valid :: a in t.proved)
    && (o !in db.orders ==> t.entries == 0)
    && (t.entries > 0 ==> t.proved == AuthzsOf(db, o) != {})
    && |t.succeeded| >= |t.proved| + (if t.entries > 0 then t.entries - 1 else 0)
    && t.dispatches + (if o in db.orders && db.orders[o].status == Ready then 1 else 0) <= t.entries
  }

  ghost predicate Bounded(s: System, t: Tally, o: Id) {
    Started(s, t, o) && Proved(s.db, t, o)
  }

  /** Seen from order `o`, the step started nothing, dispatched nothing and made nothing valid or ready. */
  ghost predicate Framed(s: System, s': System, o: Id) {
    && s.next <= s'.next
    && (forall i | i in s'.tasks && ValidatorOf(s'.tasks[i], o) :: i in s.tasks && ValidatorOf(s.tasks[i], o))
    && (forall i | i in s'.tasks && s'.tasks[i] == Finalizer(o) :: i in s.tasks && s.tasks[i] == Finalizer(o))
    && AuthzsOf(s.db, o) <= AuthzsOf(s'.db, o)
    && (o in s.db.orders ==> o in s'.db.orders && AuthzsOf(s.db, o) == AuthzsOf(s'.db, o))
    && (forall a | OwnedAuthz(s'.db, a, o) && s'.db.authzs[a].status == Valid ::
          OwnedAuthz(s.db, a, o) && s.db.authzs[a].status == Valid)
    && (IsReady(s', o) ==> IsReady(s, o))
  }

  lemma RequestsFramed(s: System, e: Event, o: Id)
    requires Sound(s) && Enabled(s, e) && !e.Acknowledge? && !e.Resume?
    ensures Framed(s, Apply(s, e), o)
  {
  }

  lemma AcknowledgeFramed(s: System, caller: Id, a: Id, o: Id)
    requires Sound(s) && (OwnedAuthz(s.db, a, o) ==> AcknowledgeStep(s, caller, a) == s)
    ensures Framed(s, AcknowledgeStep(s, caller, a), o)
  {
  }

  lemma OpenFramed(s: System, i: nat, a: Id, o': Id, o: Id)
    requires Sound(s) && i in s.tasks && s.tasks[i] == Validator(a, o')
    ensures Framed(s, OpenStep(s, i, a, o'), o)
  {
  }

  lemma FetchFramed(s: System, i: nat, a: Id, o': Id, left: nat, answer: Answer, o: Id)
    requires Sound(s) && i in s.tasks && s.tasks[i] == Fetching(a, o', left)
    ensures Framed(s, FetchStep(s, i, a, o', left, answer), o)
  {
  }

  lemma CloseFramed(s: System, i: nat, a: Id, o': Id, ok: bool, o: Id)
    requires Sound(s) && i in s.tasks && s.tasks[i] == Fetched(a, o', ok) && (o' != o || !ok)
    ensures Framed(s, CloseStep(s, i, a, o', ok), o)
  {
  }

  lemma FinalizerFramed(s: System, i: nat, answer: Answer, o: Id)
    requires Sound(s) && CanResume(s, i, answer)
    requires s.tasks[i].Claim? || s.tasks[i].Finalizer? || s.tasks[i].Signing? || s.tasks[i].Storing?
    requires s.tasks[i] != Claim(o)
    ensures Framed(s, ResumeStep(s, i, answer), o)
  {
    match s.tasks[i]
    case Claim(o') => ClaimFramed(s, i, o', o);
    case Finalizer(_) =>
    case Signing(o') => SignFramed(s, i, o', answer, o);
    case Storing(o', c) => CommitFramed(s, i, o', c, o);
  }

  lemma ClaimFramed(s: System, i: nat, o': Id, o: Id)
    requires Sound(s) && i in s.tasks && s.tasks[i] == Claim(o') && o' != o
    ensures Framed(s, ClaimStep(s, i, o'), o)
  {
  }

  lemma SignFramed(s: System, i: nat, o': Id, answer: Answer, o: Id)
    requires Sound(s) && i in s.tasks && s.tasks[i] == Signing(o')
    ensures Framed(s, SignStep(s, i, o', answer), o)
  {
  }

  lemma CommitFramed(s: System, i: nat, o': Id, c: Id, o: Id)
    requires Sound(s) && i in s.tasks && s.tasks[i] == Storing(o', c)
    ensures Framed(s, CommitStep(s, i, o', c), o)
  {
  }

  lemma FramedBounded(s: System, t: Tally, s': System, o: Id)
    requires Bounded(s, t, o) && Framed(s, s', o)
    ensures Bounded(s', t, o)
  {
  }

  lemma FramedObserve(s: System, t: Tally, e: Event, s': System, o: Id)
    requires Framed(s, s', o) && !Succeeds(s, e, o)
    ensures Observe(t, s, e, s', o) == t
  {
    assert Launches(s, s', o) == map[];
    assert t.launched + map[] == t.launched;
    assert !Dispatches(s, s', o);
  }

  lemma FramedStep(s: System, t: Tally, e: Event, s': System, o: Id)
    requires Bounded(s, t, o) && Framed(s, s', o) && !Succeeds(s, e, o)
    ensures Bounded(s', Observe(t, s, e, s', o), o)
  {
    FramedBounded(s, t, s', o);
    FramedObserve(s, t, e, s', o);
  }

  /** An accepted acknowledgement starts exactly one validator and changes nothing else the tally sees. */
  lemma AcknowledgeObserve(s: System, t: Tally, caller: Id, a: Id, o: Id)
    requires s.next !in s.tasks && OwnedAuthz(s.db, a, o) && AcknowledgeStep(s, caller, a) != s
    ensures Observe(t, s, Acknowledge(caller, a), AcknowledgeStep(s, caller, a), o)
         == t.(launched := t.launched[s.next := a])
  {
    AcknowledgeLaunches(s, caller, a, o);
    assert t.launched + map[s.next := a] == t.launched[s.next := a];
  }

  lemma AcknowledgeLaunches(s: System, caller: Id, a: Id, o: Id)
    requires s.next !in s.tasks && OwnedAuthz(s.db, a, o) && AcknowledgeStep(s, caller, a) != s
    ensures var s' := AcknowledgeStep(s, caller, a);
            Launches(s, s', o) == map[s.next := a] && !Dispatches(s, s', o) && (IsReady(s', o) ==> IsReady(s, o))
  {
    var s' := AcknowledgeStep(s, caller, a);
    assert s'.tasks == s.tasks[s.next := Validator(a, o)];
  }

  lemma AcknowledgeStarted(s: System, t: Tally, caller: Id, a: Id, o: Id)
    requires Sound(s) && Bounded(s, t, o) && OwnedAuthz(s.db, a, o) && AcknowledgeStep(s, caller, a) != s
    ensures Started(AcknowledgeStep(s, caller, a), t.(launched := t.launched[s.next := a]), o)
  {
    SameAuthzs(s.db, a, Processing, o);
    var s' := AcknowledgeStep(s, caller, a);
    assert s'.tasks == s.tasks[s.next := Validator(a, o)];
    assert AuthzsOf(s'.db, o) == AuthzsOf(s.db, o) && a in AuthzsOf(s.db, o);
  }

  lemma AcknowledgeProved(s: System, t: Tally, caller: Id, a: Id, o: Id)
    requires Sound(s) && Proved(s.db, t, o) && OwnedAuthz(s.db, a, o)
    ensures Proved(AcknowledgeStep(s, caller, a).db, t.(launched := t.launched[s.next := a]), o)
  {
    SameAuthzs(s.db, a, Processing, o);
  }

  lemma ClaimObserve(s: System, t: Tally, i: nat, o: Id)
    requires i in s.tasks && s.tasks[i] == Claim(o)
    ensures Observe(t, s, Resume(i, Proceed), ClaimStep(s, i, o), o)
         == if IsReady(s, o) then t.(dispatches := t.dispatches + 1) else t
  {
    var s' := ClaimStep(s, i, o);
    assert Launches(s, s', o) == map[];
    assert t.launched + map[] == t.launched;
    if IsReady(s, o) {
      assert s'.tasks[i] == Finalizer(o);
    }
  }

  lemma ClaimBounded(s: System, t: Tally, i: nat, o: Id)
    requires Sound(s) && Bounded(s, t, o) && i in s.tasks && s.tasks[i] == Claim(o)
    ensures Bounded(ClaimStep(s, i, o), if IsReady(s, o) then t.(dispatches := t.dispatches + 1) else t, o)
  {
    assert AuthzsOf(s.db, o) == AuthzsOf(ClaimStep(s, i, o).db, o);
  }

  lemma SuccessObserve(s: System, t: Tally, i: nat, a: Id, o: Id)
    requires Sound(s) && i in s.tasks && s.tasks[i] == Fetched(a, o, true)
    ensures var s' := CloseStep(s, i, a, o, true);
            Observe(t, s, Resume(i, Proceed), s', o)
            == Tally(t.launched, t.succeeded + {i}, t.proved + {a},
                     if !IsReady(s, o) && IsReady(s', o) then t.entries + 1 else t.entries, t.dispatches)
  {
    var s' := CloseStep(s, i, a, o, true);
    assert Launches(s, s', o) == map[];
    assert t.launched + map[] == t.launched;
    assert !Dispatches(s, s', o);
  }

  lemma SuccessStarted(s: System, t: Tally, t': Tally, i: nat, a: Id, o: Id)
    requires Sound(s) && Started(s, t, o) && i in s.tasks && s.tasks[i] == Fetched(a, o, true)
    requires t'.launched == t.launched && t'.succeeded == t.succeeded + {i}
    ensures Started(CloseStep(s, i, a, o, true), t', o)
  {
    assert AuthzsOf(s.db, o) == AuthzsOf(CloseStep(s, i, a, o, true).db, o);
  }

  /** The first entry into `ready` needs every authorization proved; each later one needs a duplicate success. */
  lemma SuccessProved(db: Database, t: Tally, a: Id, o: Id, i: nat)
    requires Proved(db, t, o) && OwnedAuthz(db, a, o) && o in db.orders && i !in t.succeeded
    ensures var db' := WithAuthzStatus(db, a, Valid);
            var db'' := if AllValid(db', o) then WithOrderStatus(db', o, Ready) else db';
            var entered := AllValid(db', o) && db.orders[o].status != Ready;
            Proved(db'', Tally(t.launched, t.succeeded + {i}, t.proved + {a},
                               if entered then t.entries + 1 else t.entries, t.dispatches), o)
  {
    var db' := WithAuthzStatus(db, a, Valid);
    MoreProved(db, t, a, o, i);
    if AllValid(db', o) {
      AllProved(db, t, a, o);
      assert AuthzsOf(WithOrderStatus(db', o, Ready), o) == AuthzsOf(db', o);
    }
  }

  lemma MoreProved(db: Database, t: Tally, a: Id, o: Id, i: nat)
    requires Proved(db, t, o) && OwnedAuthz(db, a, o) && i !in t.succeeded
    ensures Proved(WithAuthzStatus(db, a, Valid), t.(succeeded := t.succeeded + {i}, proved := t.proved + {a}), o)
    ensures AuthzsOf(WithAuthzStatus(db, a, Valid), o) == AuthzsOf(db, o) && |t.succeeded + {i}| == |t.succeeded| + 1
    ensures t.entries > 0 ==> t.proved + {a} == t.proved
  {
    var db' := WithAuthzStatus(db, a, Valid);
    assert a in AuthzsOf(db, o);
    SameAuthzs(db, a, Valid, o);
    OneMore(t.succeeded, i);
    OneMore(t.proved, a);
    assert t.entries > 0 ==> t.proved + {a} == t.proved;
    assert forall b | OwnedAuthz(db', b, o) && db'.authzs[b].status == Valid :: b == a || db.authzs[b].status == Valid;
  }

  lemma SameAuthzs(db: Database, a: Id, status: Status, o: Id)
    requires a in db.authzs
    ensures AuthzsOf(WithAuthzStatus(db, a, status), o) == AuthzsOf(db, o)
  {
  }

  lemma AllProved(db: Database, t: Tally, a: Id, o: Id)
    requires Proved(db, t, o) && OwnedAuthz(db, a, o) && AllValid(WithAuthzStatus(db, a, Valid), o)
    ensures t.proved + {a} == AuthzsOf(db, o)
  {
    forall b | b in AuthzsOf(db, o) ensures b in t.proved + {a} {
      assert b in WithAuthzStatus(db, a, Valid).authzs;
      assert b != a ==> db.authzs[b].status == Valid;
    }
  }

  lemma StepBounded(s: System, t: Tally, e: Event, o: Id)
    requires Sound(s) && Bounded(s, t, o) && Enabled(s, e)
    ensures Bounded(Apply(s, e), Observe(t, s, e, Apply(s, e), o), o)
  {
    match e
    case Acknowledge(caller, a) =>
      if OwnedAuthz(s.db, a, o) && AcknowledgeStep(s, caller, a) != s {
        AcknowledgeObserve(s, t, caller, a, o);
        AcknowledgeStarted(s, t, caller, a, o);
        AcknowledgeProved(s, t, caller, a, o);
      } else {
        AcknowledgeFramed(s, caller, a, o);
        FramedStep(s, t, e, Apply(s, e), o);
      }
    case Resume(i, answer) => ResumeBounded(s, t, i, answer, o);
    case _ =>
      RequestsFramed(s, e, o);
      FramedStep(s, t, e, Apply(s, e), o);
  }

  lemma ResumeBounded(s: System, t: Tally, i: nat, answer: Answer, o: Id)
    requires Sound(s) && Bounded(s, t, o) && CanResume(s, i, answer)
    ensures Bounded(ResumeStep(s, i, answer), Observe(t, s, Resume(i, answer), ResumeStep(s, i, answer), o), o)
  {
    if s.tasks[i] == Claim(o) {
      ClaimObserve(s, t, i, o);
      ClaimBounded(s, t, i, o);
    } else if s.tasks[i].Fetched? && s.tasks[i].ok && s.tasks[i].order == o {
      var a := s.tasks[i].authz;
      SuccessObserve(s, t, i, a, o);
      SuccessProved(s.db, t, a, o, i);
      SuccessStarted(s, t, Observe(t, s, Resume(i, answer), CloseStep(s, i, a, o, true), o), i, a, o);
    } else {
      match s.tasks[i] {
        case Validator(a, o') => OpenFramed(s, i, a, o', o);
        case Fetching(a, o', left) => FetchFramed(s, i, a, o', left, answer, o);
        case Fetched(a, o', ok) => CloseFramed(s, i, a, o', ok, o);
        case _ => FinalizerFramed(s, i, answer, o);
      }
      FramedStep(s, t, Resume(i, answer), ResumeStep(s, i, answer), o);
    }
  }

  lemma {:induction false} RunBounded(retries: int, run: seq<Event>, o: Id)
    requires Legal(retries, run)
    ensures Bounded(After(retries, run), Count(retries, run, o), o)
    decreases |run|
  {
    if run != [] {
      RunSound(retries, Before(run));
      RunBounded(retries, Before(run), o);
      StepBounded(After(retries, Before(run)), Count(retries, Before(run), o), Last(run), o);
    }
  }

  /**
   Issuances never exceed entries into `ready`, those never exceed successful validations, and every issuance
   after the first is paid for by a validator started beyond one per authorization.
   */
  lemma IssuanceBound(retries: int, run: seq<Event>, o: Id)
    requires Legal(retries, run)
    ensures var t := Count(retries, run, o);
            && t.dispatches <= t.entries <= |t.succeeded| <= |t.launched|
            && (t.dispatches > 0 ==> |AuthzsOf(After(retries, run).db, o)| + t.dispatches <= |t.launched| + 1)
  {
    RunBounded(retries, run, o);
    var t := Count(retries, run, o);
    SubsetSize(t.succeeded, t.launched.Keys);
    if t.entries > 0 {
      assert |t.proved| > 0;
    }
  }

  ghost predicate OnePerAuthz(launched: map<nat, Id>) {
    forall i, j | i in launched && j in launched && launched[i] == launched[j] :: i == j
  }

  lemma {:induction false} OnePerAuthzSize(launched: map<nat, Id>, targets: set<Id>)
    requires OnePerAuthz(launched) && (forall i | i in launched :: launched[i] in targets)
    ensures |launched| <= |targets|
  {
    if launched != map[] {
      var i :| i in launched;
      OnePerAuthzSize(launched - {i}, targets - {launched[i]});
      assert launched.Keys == (launched - {i}).Keys + {i};
    }
  }

  /** With at most one validator per authorization the order is issued at most once. */
  lemma IssuedAtMostOnce(retries: int, run: seq<Event>, o: Id)
    requires Legal(retries, run) && OnePerAuthz(Count(retries, run, o).launched)
    ensures Count(retries, run, o).dispatches <= 1
  {
    IssuanceBound(retries, run, o);
    RunBounded(retries, run, o);
    OnePerAuthzSize(Count(retries, run, o).launched, AuthzsOf(After(retries, run).db, o));
  }

  lemma RequestsDispatchNothing(s: System, e: Event, o: Id)
    requires Sound(s) && Enabled(s, e) && !e.Resume?
    ensures !Dispatches(s, Apply(s, e), o)
  {
  }

  lemma ValidatorsDispatchNothing(s: System, i: nat, answer: Answer, o: Id)
    requires Sound(s) && CanResume(s, i, answer)
    requires IsValidator(s.tasks[i])
    ensures !Dispatches(s, ResumeStep(s, i, answer), o)
  {
  }

  /** An issuance is dispatched by winning the claim of a ready order, and by nothing else. */
  lemma DispatchNeedsReady(s: System, e: Event, o: Id)
    requires Sound(s) && Enabled(s, e)
    ensures Dispatches(s, Apply(s, e), o) ==> IsReady(s, o) && e.Resume? && s.tasks[e.task] == Claim(o)
  {
    if !e.Resume? {
      RequestsDispatchNothing(s, e, o);
    } else if IsValidator(s.tasks[e.task]) {
      ValidatorsDispatchNothing(s, e.task, e.answer, o);
    } else if s.tasks[e.task] != Claim(o) {
      FinalizerFramed(s, e.task, e.answer, o);
    } else {
      ClaimObserve(s, Tally(map[], {}, {}, 0, 0), e.task, o);
    }
  }
}
