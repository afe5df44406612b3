/** Left alone, the relay's tasks run out, and then no order or authorization is left in processing. */
module OrderProgress {
  import opened OrderModel
  import opened OrderInvariants
  import opened OrderIssuance
  import opened OrderPhases

  /** How many times a task can still be resumed. */
  function Weight(t: Task, retries: int): nat {
    match t
    case Validator(_, _) => (if retries > 0 then retries else 0) + 3
    case Fetching(_, _, left) => left + 2
    case Fetched(_, _, _) => 1
    case Claim(_) => 4
    case Finalizer(_) => 3
    case Signing(_) => 2
    case Storing(_, _) => 1
  }

  function Load(tasks: map<nat, Task>, n: nat, retries: int): nat {
    if n == 0 then 0
    else Load(tasks, n - 1, retries) + if n - 1 in tasks then Weight(tasks[n - 1], retries) else 0
  }

  function Remaining(s: System): nat {
    Load(s.tasks, s.next, s.retries)
  }

  lemma {:induction false} LoadAt(tasks: map<nat, Task>, tasks': map<nat, Task>, i: nat, n: nat, retries: int)
    requires i in tasks && tasks' - {i} == tasks - {i}
    requires i in tasks' ==> Weight(tasks'[i], retries) < Weight(tasks[i], retries)
    ensures if i < n then Load(tasks', n, retries) < Load(tasks, n, retries)
            else Load(tasks', n, retries) == Load(tasks, n, retries)
  {
    if n > 0 {
      LoadAt(tasks, tasks', i, n - 1, retries);
      if n - 1 != i {
        assert n - 1 in tasks <==> n - 1 in tasks - {i};
        assert n - 1 in tasks' <==> n - 1 in tasks' - {i};
        assert n - 1 in tasks ==> tasks[n - 1] == (tasks - {i})[n - 1] == (tasks' - {i})[n - 1];
      }
    }
  }

  /** Resuming a task ends it or leaves it less to do, and leaves every other task alone. */
  ghost predicate Replaces(s: System, s': System, i: nat)
    requires i in s.tasks
  {
    && s'.next == s.next && s'.retries == s.retries
    && s'.tasks - {i} == s.tasks - {i}
    && (i in s'.tasks ==> Weight(s'.tasks[i], s.retries) < Weight(s.tasks[i], s.retries))
  }

  lemma EndsOrGoesOn(s: System, i: nat, answer: Answer)
    requires CanResume(s, i, answer)
    ensures var s' := ResumeStep(s, i, answer);
            && s'.next == s.next && s'.retries == s.retries
            && (s'.tasks == s.tasks - {i}
                || (i in s'.tasks && s'.tasks == s.tasks[i := s'.tasks[i]]
                    && Weight(s'.tasks[i], s.retries) < Weight(s.tasks[i], s.retries)))
  {
  }

  lemma ResumeReplaces(s: System, i: nat, answer: Answer)
    requires Sound(s) && CanResume(s, i, answer)
    ensures Replaces(s, ResumeStep(s, i, answer), i)
  {
    var s' := ResumeStep(s, i, answer);
    EndsOrGoesOn(s, i, answer);
    if i in s'.tasks {
      assert s'.tasks - {i} == s.tasks[i := s'.tasks[i]] - {i};
    }
  }

  lemma ResumeLightens(s: System, i: nat, answer: Answer)
    requires Sound(s) && CanResume(s, i, answer)
    ensures Remaining(ResumeStep(s, i, answer)) < Remaining(s)
  {
    var s' := ResumeStep(s, i, answer);
    ResumeReplaces(s, i, answer);
    LoadAt(s.tasks, s'.tasks, i, s.next, s.retries);
  }

  lemma LastLightens(retries: int, run: seq<Event>)
    requires Legal(retries, run) && run != [] && Last(run).Resume?
    ensures Remaining(After(retries, run)) < Remaining(After(retries, Before(run)))
  {
    RunSound(retries, Before(run));
    ResumeLightens(After(retries, Before(run)), Last(run).task, Last(run).answer);
  }

  ghost predicate OnlyResumes(events: seq<Event>) {
    forall e | e in events :: e.Resume?
  }

  /** With no new requests, every schedule of the live tasks is bounded by what they still have to do. */
  lemma {:induction false} BoundedWork(retries: int, run: seq<Event>, more: seq<Event>)
    requires Legal(retries, run + more) && Legal(retries, run) && OnlyResumes(more)
    ensures |more| + Remaining(After(retries, run + more)) <= Remaining(After(retries, run))
  {
    if more == [] {
      assert run + more == run;
    } else {
      LastOfBoth(run, more);
      BoundedWork(retries, run, Before(more));
      LastLightens(retries, run + more);
    }
  }

  lemma LastOfBoth(run: seq<Event>, more: seq<Event>)
    requires more != [] && OnlyResumes(more)
    ensures Before(run + more) == run + Before(more) && OnlyResumes(Before(more))
    ensures Last(run + more) == Last(more) && Last(more).Resume?
  {
    assert Last(more) in more;
  }

  /** No await blocks another: some answer is always acceptable to every live task. */
  lemma AlwaysResumable(retries: int, run: seq<Event>, i: nat)
    requires Legal(retries, run) && i in After(retries, run).tasks
    ensures exists answer :: CanResume(After(retries, run), i, answer)
  {
    var s := After(retries, run);
    RunSound(retries, run);
    assert TaskRefers(s.db, s.tasks[i]);
    match s.tasks[i]
    case Fetching(_, _, left) => assert CanResume(s, i, if left == 0 then Proceed else AttemptFailed);
    case Signing(_) => assert CanResume(s, i, SignFailed);
    case _ => assert CanResume(s, i, Proceed);
  }

  /** In every reachable state what is processing is being worked on. */
  lemma NoStuckWork(retries: int, run: seq<Event>, o: Id, a: Id)
    requires Legal(retries, run) && Sole(After(retries, run).db, o, a)
    ensures var s := After(retries, run);
            && a in s.db.authzs
            && (s.db.authzs[a].status == Processing ==> Attended(s, a))
            && (s.db.orders[o].status == Processing ==> HasValidator(s, o) || HasFinalizer(s, o))
  {
    RunBusy(retries, run, o, a);
    RunAttended(retries, run, a);
  }

  /** No task is left and nothing is processing. */
  ghost predicate Settled(s: System) {
    && s.tasks == map[]
    && (forall a | a in s.db.authzs :: s.db.authzs[a].status != Processing)
    && (forall o, a | Sole(s.db, o, a) :: s.db.orders[o].status != Processing)
  }

  /**
   Whatever the tasks are answered and in whatever order they are resumed: a schedule never exceeds what they had
   left to do, and once it cannot go on, nothing is processing.
   */
  lemma Settles(retries: int, run: seq<Event>, more: seq<Event>)
    requires Legal(retries, run + more) && Legal(retries, run) && OnlyResumes(more)
    ensures |more| <= Remaining(After(retries, run))
    ensures var s := After(retries, run + more);
            (forall i, answer :: !CanResume(s, i, answer)) <==> Settled(s)
  {
    BoundedWork(retries, run, more);
    var s := After(retries, run + more);
    if forall i, answer :: !CanResume(s, i, answer) {
      forall i | i in s.tasks ensures false {
        AlwaysResumable(retries, run + more, i);
      }
      assert s.tasks == map[];
      forall a | a in s.db.authzs ensures s.db.authzs[a].status != Processing {
        RunAttended(retries, run + more, a);
      }
      forall o, a | Sole(s.db, o, a) ensures s.db.orders[o].status != Processing {
        NoStuckWork(retries, run + more, o, a);
      }
    }
  }

  /** And from every reachable state some schedule does get there. */
  lemma {:induction false} CanSettle(retries: int, run: seq<Event>) returns (more: seq<Event>)
    requires Legal(retries, run)
    ensures OnlyResumes(more) && Legal(retries, run + more) && Settled(After(retries, run + more))
    decreases Remaining(After(retries, run))
  {
    if After(retries, run).tasks == map[] {
      more := [];
      assert run + more == run;
      assert forall i, answer :: !CanResume(After(retries, run), i, answer);
      Settles(retries, run, more);
    } else {
      var e := OneStep(retries, run);
      var rest := CanSettle(retries, run + [e]);
      more := [e] + rest;
      assert run + more == run + [e] + rest;
    }
  }

  lemma OneStep(retries: int, run: seq<Event>) returns (e: Event)
    requires Legal(retries, run) && After(retries, run).tasks != map[]
    ensures e.Resume? && Legal(retries, run + [e])
    ensures Remaining(After(retries, run + [e])) < Remaining(After(retries, run))
  {
    var s := After(retries, run);
    var i :| i in s.tasks;
    AlwaysResumable(retries, run, i);
    var answer :| CanResume(s, i, answer);
    e := Resume(i, answer);
    assert Before(run + [e]) == run;
    LastLightens(retries, run + [e]);
  }
}
