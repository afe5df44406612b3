/**
 Concurrent read-modify-write cycles on Namecheap host lists. A write replaces the whole list, so what is at
 stake is a lost update; one lock for each apex is what prevents it.
 */
module NamecheapRuns {
  import opened HostParams

  datatype Op = Append(host: Host) | DeleteTxt(name: string)

  predicate IsTxt(h: Host, name: string) {
    h.kind == "TXT" && h.name == name
  }

  function DropTxt(hosts: seq<Host>, name: string): seq<Host> {
    if hosts == [] then []
    else if IsTxt(hosts[0], name) then DropTxt(hosts[1..], name)
    else [hosts[0]] + DropTxt(hosts[1..], name)
  }

  /** What the operation means on a list nobody else touches. */
  function Perform(op: Op, hosts: seq<Host>): seq<Host> {
    match op
    case Append(h) => hosts + [h]
    case DeleteTxt(name) => DropTxt(hosts, name)
  }

  function Fold(ops: seq<Op>, hosts: seq<Host>): seq<Host> {
    if ops == [] then hosts else Perform(ops[|ops| - 1], Fold(ops[..|ops| - 1], hosts))
  }

  datatype Phase = Waiting | Holding | Writing(hosts: seq<Host>) | Finished

  datatype Flow = Flow(apex: string, op: Op, phase: Phase)

  datatype State = State(remote: map<string, seq<Host>>, holder: map<string, nat>, flows: map<nat, Flow>)

  datatype Event =
    | Begin(id: nat, apex: string, op: Op)
    | Acquire(id: nat)
    | Read(id: nat, ok: bool)
    | Write(id: nat, applied: bool)   // a write that is reported as failed may still have been applied

  function Remote(s: State, apex: string): seq<Host> {
    if apex in s.remote then s.remote[apex] else []
  }

  function Move(s: State, id: nat, phase: Phase): State
    requires id in s.flows
  {
    s.(flows := s.flows[id := s.flows[id].(phase := phase)])
  }

  /** Leaving the `async with` block, normally or by an exception. */
  function Leave(s: State, id: nat): State
    requires id in s.flows
  {
    Move(s, id, Finished).(holder := s.holder - {s.flows[id].apex})
  }

  predicate Enabled(s: State, e: Event) {
    match e
    case Begin(id, _, _) => id !in s.flows
    case Acquire(id) => id in s.flows && s.flows[id].phase == Waiting && s.flows[id].apex !in s.holder
    case Read(id, _) => id in s.flows && s.flows[id].phase == Holding
    case Write(id, _) => id in s.flows && s.flows[id].phase.Writing?
  }

  function Apply(s: State, e: Event): State
    requires Enabled(s, e)
  {
    match e
    case Begin(id, apex, op) => s.(flows := s.flows[id := Flow(apex, op, Waiting)])
    case Acquire(id) => Move(s, id, Holding).(holder := s.holder[s.flows[id].apex := id])
    case Read(id, ok) =>
      var hosts := Remote(s, s.flows[id].apex);
      var next := Perform(s.flows[id].op, hosts);
      if !ok || (s.flows[id].op.DeleteTxt? && |next| == |hosts|) then Leave(s, id) else Move(s, id, Writing(next))
    case Write(id, applied) =>
      var s' := Leave(s, id);
      if applied then s'.(remote := s.remote[s.flows[id].apex := s.flows[id].phase.hosts]) else s'
  }

  // ----- runs

  ghost predicate Legal(zones: map<string, seq<Host>>, run: seq<Event>)
    decreases |run|, 0
  {
    run == [] || (Legal(zones, run[..|run| - 1]) && Enabled(After(zones, run[..|run| - 1]), run[|run| - 1]))
  }

  ghost function After(zones: map<string, seq<Host>>, run: seq<Event>): State
    requires Legal(zones, run)
    decreases |run|, 1
  {
    if run == [] then State(zones, map[], map[]) else Apply(After(zones, run[..|run| - 1]), run[|run| - 1])
  }

  /** The flows on `apex` in the order in which they got its lock. */
  ghost function LockOrder(zones: map<string, seq<Host>>, run: seq<Event>, apex: string): seq<nat>
    requires Legal(zones, run)
    decreases |run|
  {
    if run == [] then [] else
    var s, e := After(zones, run[..|run| - 1]), run[|run| - 1];
    LockOrder(zones, run[..|run| - 1], apex) + (if e.Acquire? && s.flows[e.id].apex == apex then [e.id] else [])
  }

  /** The flows on `apex` whose write reached the remote list, in the order in which it did. */
  ghost function Writers(zones: map<string, seq<Host>>, run: seq<Event>, apex: string): seq<nat>
    requires Legal(zones, run)
    decreases |run|
  {
    if run == [] then [] else
    var s, e := After(zones, run[..|run| - 1]), run[|run| - 1];
    Writers(zones, run[..|run| - 1], apex)
        + (if e.Write? && e.applied && s.flows[e.id].apex == apex then [e.id] else [])
  }

  function OpsOf(flows: map<nat, Flow>, ids: seq<nat>): seq<Op>
    requires forall id | id in ids :: id in flows
  {
    if ids == [] then [] else OpsOf(flows, ids[..|ids| - 1]) + [flows[ids[|ids| - 1]].op]
  }

  function Keep(ids: seq<nat>, kept: seq<nat>): seq<nat> {
    if ids == [] then [] else
    Keep(ids[..|ids| - 1], kept) + (if ids[|ids| - 1] in kept then [ids[|ids| - 1]] else [])
  }

  // ----- mutual exclusion

  predicate InSection(f: Flow) {
    f.phase == Holding || f.phase.Writing?
  }

  ghost predicate Exclusive(s: State) {
    && (forall id | id in s.flows && InSection(s.flows[id]) ::
        s.flows[id].apex in s.holder && s.holder[s.flows[id].apex] == id)
    && (forall apex | apex in s.holder ::
          s.holder[apex] in s.flows && InSection(s.flows[s.holder[apex]]) && s.flows[s.holder[apex]].apex == apex)
    && (forall id | id in s.flows && s.flows[id].phase.Writing? ::
          s.flows[id].phase.hosts == Perform(s.flows[id].op, Remote(s, s.flows[id].apex)))
  }

  lemma LeaveExclusive(s: State, id: nat, remote: map<string, seq<Host>>)
    requires Exclusive(s) && id in s.flows && InSection(s.flows[id])
    requires remote - {s.flows[id].apex} == s.remote - {s.flows[id].apex}
    ensures Exclusive(Leave(s, id).(remote := remote))
  {
    var apex := s.flows[id].apex;
    var s' := Leave(s, id).(remote := remote);
    forall j | j in s'.flows && InSection(s'.flows[j]) ensures s'.flows[j].apex != apex && j in s.flows {
      assert j != id;
    }
    forall other | other != apex ensures Remote(s', other) == Remote(s, other) {
      assert other in s.remote - {apex} <==> other in s.remote;
      assert other in remote - {apex} <==> other in remote;
      assert other in remote ==> remote[other] == (remote - {apex})[other];
    }
  }

  lemma EnterExclusive(s: State, e: Event)
    requires Exclusive(s) && Enabled(s, e) && !e.Write? && Apply(s, e).holder.Keys >= s.holder.Keys
    ensures Exclusive(Apply(s, e))
  {
  }

  lemma StepExclusive(s: State, e: Event)
    requires Exclusive(s) && Enabled(s, e)
    ensures Exclusive(Apply(s, e))
  {
    match e
    case Read(id, ok) =>
      if Apply(s, e) == Leave(s, id) {
        LeaveExclusive(s, id, s.remote);
      } else {
        EnterExclusive(s, e);
      }
    case Write(id, _) =>
      assert Apply(s, e) == Leave(s, id).(remote := Apply(s, e).remote);
      LeaveExclusive(s, id, Apply(s, e).remote);
    case _ => EnterExclusive(s, e);
  }

  lemma {:induction false} RunExclusive(zones: map<string, seq<Host>>, run: seq<Event>)
    requires Legal(zones, run)
    ensures Exclusive(After(zones, run))
    decreases |run|
  {
    if run != [] {
      RunExclusive(zones, run[..|run| - 1]);
      StepExclusive(After(zones, run[..|run| - 1]), run[|run| - 1]);
    }
  }

  /** Whoever waits for a lock that no flow of its own apex holds can take it, whatever happens on other apexes. */
  lemma OthersNeverBlock(zones: map<string, seq<Host>>, run: seq<Event>, id: nat)
    requires Legal(zones, run)
    requires id in After(zones, run).flows && After(zones, run).flows[id].phase == Waiting
    ensures var s := After(zones, run);
            Enabled(s, Acquire(id)) <==> forall j | j in s.flows && s.flows[j].apex == s.flows[id].apex ::
                !InSection(s.flows[j])
  {
    RunExclusive(zones, run);
  }

  // ----- serialisability

  ghost predicate Serial(s: State, apex: string, start: seq<Host>, order: seq<nat>, writers: seq<nat>) {
    && (forall id | id in order + writers :: id in s.flows && s.flows[id].apex == apex && s.flows[id].phase != Waiting)
    && (forall id | id in writers :: s.flows[id].phase == Finished)
    && (apex in s.holder ==>
          order != [] && order[|order| - 1] == s.holder[apex] && s.holder[apex] !in order[..|order| - 1])
    && Keep(order, writers) == writers
    && Remote(s, apex) == Fold(OpsOf(s.flows, writers), start)
  }

  lemma {:induction false} OpsOfSame(flows: map<nat, Flow>, flows': map<nat, Flow>, ids: seq<nat>)
    requires forall id | id in ids :: id in flows && id in flows' && flows'[id].op == flows[id].op
    ensures OpsOf(flows', ids) == OpsOf(flows, ids)
  {
    if ids != [] {
      OpsOfSame(flows, flows', ids[..|ids| - 1]);
    }
  }

  lemma {:induction false} KeepMore(ids: seq<nat>, kept: seq<nat>, id: nat)
    requires id !in ids
    ensures Keep(ids, kept + [id]) == Keep(ids, kept)
  {
    if ids != [] {
      KeepMore(ids[..|ids| - 1], kept, id);
    }
  }

  /** Nobody got the lock of `apex` and nothing was written to it. */
  ghost predicate Quiet(s: State, s': State, apex: string) {
    && Remote(s', apex) == Remote(s, apex)
    && (apex in s'.holder ==> apex in s.holder && s'.holder[apex] == s.holder[apex])
    && (forall id | id in s.flows ::
          id in s'.flows && s'.flows[id].apex == s.flows[id].apex && s'.flows[id].op == s.flows[id].op
          && (s.flows[id].phase != Waiting ==> s'.flows[id].phase != Waiting)
          && (s.flows[id].phase == Finished ==> s'.flows[id].phase == Finished))
  }

  lemma QuietStep(s: State, e: Event, apex: string)
    requires Enabled(s, e)
    requires e.Begin? || s.flows[e.id].apex != apex || e.Read? || (e.Write? && !e.applied)
    ensures Quiet(s, Apply(s, e), apex)
  {
  }

  lemma QuietSerial(s: State, s': State, apex: string, start: seq<Host>, order: seq<nat>, writers: seq<nat>)
    requires Serial(s, apex, start, order, writers) && Quiet(s, s', apex)
    ensures Serial(s', apex, start, order, writers)
  {
    assert forall id | id in writers :: id in order + writers;
    OpsOfSame(s.flows, s'.flows, writers);
  }

  lemma AcquireSerial(s: State, id: nat, apex: string, start: seq<Host>, order: seq<nat>, writers: seq<nat>)
    requires Exclusive(s) && Enabled(s, Acquire(id)) && s.flows[id].apex == apex
    requires Serial(s, apex, start, order, writers)
    ensures Serial(Apply(s, Acquire(id)), apex, start, order + [id], writers)
  {
    OpsOfSame(s.flows, Apply(s, Acquire(id)).flows, writers);
    assert (order + [id])[..|order|] == order;
    assert id !in order by { assert forall j | j in order :: j in order + writers; }
    assert id !in writers by { assert forall j | j in writers :: j in order + writers; }
  }

  lemma KeepWriter(order: seq<nat>, writers: seq<nat>, id: nat)
    requires order != [] && order[|order| - 1] == id && id !in order[..|order| - 1] && id !in writers
    requires Keep(order, writers) == writers
    ensures Keep(order, writers + [id]) == writers + [id]
  {
    var front := order[..|order| - 1];
    KeepMore(front, writers, id);
    assert Keep(front, writers) == writers by {
      assert Keep(order, writers) == Keep(front, writers) + [];
    }
    assert id in writers + [id];
    assert Keep(order, writers + [id]) == Keep(front, writers + [id]) + [id];
  }

  lemma FoldWriter(s: State, s': State, writers: seq<nat>, id: nat, start: seq<Host>)
    requires forall j | j in writers + [id] :: j in s.flows && j in s'.flows && s'.flows[j].op == s.flows[j].op
    ensures Fold(OpsOf(s'.flows, writers + [id]), start)
            == Perform(s.flows[id].op, Fold(OpsOf(s.flows, writers), start))
  {
    assert (writers + [id])[..|writers|] == writers;
    assert forall j | j in writers :: j in writers + [id];
    assert id in writers + [id];
    OpsOfSame(s.flows, s'.flows, writers);
    var ops := OpsOf(s.flows, writers);
    assert OpsOf(s'.flows, writers + [id]) == ops + [s.flows[id].op];
    assert (ops + [s.flows[id].op])[..|ops|] == ops;
  }

  lemma WriteSerial(s: State, id: nat, apex: string, start: seq<Host>, order: seq<nat>, writers: seq<nat>)
    requires Exclusive(s) && Enabled(s, Write(id, true)) && s.flows[id].apex == apex
    requires Serial(s, apex, start, order, writers)
    ensures Serial(Apply(s, Write(id, true)), apex, start, order, writers + [id])
  {
    var s' := Apply(s, Write(id, true));
    KeepWriter(order, writers, id);
    WriteFolds(s, id, apex, start, order, writers);
    assert forall j | j in order + (writers + [id]) :: j in order + writers || j == id;
  }

  lemma WriteFolds(s: State, id: nat, apex: string, start: seq<Host>, order: seq<nat>, writers: seq<nat>)
    requires Exclusive(s) && Enabled(s, Write(id, true)) && s.flows[id].apex == apex
    requires Serial(s, apex, start, order, writers)
    ensures var s' := Apply(s, Write(id, true));
            (forall j | j in writers + [id] :: j in s'.flows)
            && Remote(s', apex) == Fold(OpsOf(s'.flows, writers + [id]), start)
  {
    assert forall j | j in writers :: j in order + writers;
    FoldWriter(s, Apply(s, Write(id, true)), writers, id, start);
  }

  lemma StepSerial(s: State, e: Event, apex: string, start: seq<Host>, order: seq<nat>, writers: seq<nat>)
    requires Exclusive(s) && Enabled(s, e) && Serial(s, apex, start, order, writers)
    ensures Serial(Apply(s, e), apex, start,
                   order + (if e.Acquire? && s.flows[e.id].apex == apex then [e.id] else []),
                   writers + (if e.Write? && e.applied && s.flows[e.id].apex == apex then [e.id] else []))
  {
    assert order + [] == order && writers + [] == writers;
    if e.Acquire? && s.flows[e.id].apex == apex {
      AcquireSerial(s, e.id, apex, start, order, writers);
    } else if e.Write? && e.applied && s.flows[e.id].apex == apex {
      WriteSerial(s, e.id, apex, start, order, writers);
    } else {
      QuietStep(s, e, apex);
      QuietSerial(s, Apply(s, e), apex, start, order, writers);
    }
  }

  lemma {:induction false} RunSerial(zones: map<string, seq<Host>>, run: seq<Event>, apex: string)
    requires Legal(zones, run)
    ensures Serial(After(zones, run), apex, if apex in zones then zones[apex] else [],
                   LockOrder(zones, run, apex), Writers(zones, run, apex))
    decreases |run|
  {
    if run != [] {
      var before := run[..|run| - 1];
      RunExclusive(zones, before);
      RunSerial(zones, before, apex);
      StepSerial(After(zones, before), run[|run| - 1], apex, if apex in zones then zones[apex] else [],
                 LockOrder(zones, before, apex), Writers(zones, before, apex));
    }
  }

  /**
   Whatever the interleaving and the failures, the remote list is what performing the completed writes one after
   the other, in the order in which the lock was taken, makes of the list at the start.
   */
  lemma Serialisable(zones: map<string, seq<Host>>, run: seq<Event>, apex: string)
    requires Legal(zones, run)
    ensures var s, writers := After(zones, run), Writers(zones, run, apex);
            && (forall id | id in writers :: id in s.flows)
            && Remote(s, apex) == Fold(OpsOf(s.flows, writers), if apex in zones then zones[apex] else [])
            && writers == Keep(LockOrder(zones, run, apex), writers)
  {
    RunSerial(zones, run, apex);
    var s, order, writers := After(zones, run), LockOrder(zones, run, apex), Writers(zones, run, apex);
    assert forall id | id in writers :: id in order + writers;
  }

  // ----- what one cycle does

  /** A delete leaves no TXT record of its name, and every other record as often as it was there. */
  lemma {:induction false} DeleteDeletes(hosts: seq<Host>, name: string)
    ensures var kept := Perform(DeleteTxt(name), hosts);
            && (forall h | h in kept :: !(h.kind == "TXT" && h.name == name))
            && (forall h: Host ::
                  multiset(kept)[h] == if h.kind == "TXT" && h.name == name then 0 else multiset(hosts)[h])
            && (kept == hosts <==> forall h | h in hosts :: !(h.kind == "TXT" && h.name == name))
            && |kept| <= |hosts| && (|kept| == |hosts| ==> kept == hosts)
  {
    if hosts != [] {
      DeleteDeletes(hosts[1..], name);
      assert hosts == [hosts[0]] + hosts[1..];
    }
  }

  /** And it keeps them in their order: `at` says where each of them was. */
  lemma {:induction false} DeleteKeepsOrder(hosts: seq<Host>, name: string) returns (at: seq<nat>)
    ensures var kept := Perform(DeleteTxt(name), hosts);
            && |at| == |kept|
            && (forall k | 0 <= k < |at| :: at[k] < |hosts| && kept[k] == hosts[at[k]])
            && (forall j, k | 0 <= j < k < |at| :: at[j] < at[k])
  {
    if hosts == [] {
      at := [];
    } else {
      var rest := DeleteKeepsOrder(hosts[1..], name);
      var moved := seq(|rest|, k requires 0 <= k < |rest| => rest[k] + 1);
      at := if IsTxt(hosts[0], name) then moved else [0] + moved;
    }
  }

  lemma Extend(zones: map<string, seq<Host>>, run: seq<Event>, e: Event)
    requires Legal(zones, run) && Enabled(After(zones, run), e)
    ensures Legal(zones, run + [e]) && After(zones, run + [e]) == Apply(After(zones, run), e)
  {
    assert (run + [e])[..|run|] == run;
  }

  /** A flow that finds its apex's lock free can do its whole cycle, which has its effect and frees the lock. */
  lemma CycleHasItsEffect(zones: map<string, seq<Host>>, run: seq<Event>, id: nat)
    requires Legal(zones, run) && id in After(zones, run).flows && After(zones, run).flows[id].phase == Waiting
    requires After(zones, run).flows[id].apex !in After(zones, run).holder
    ensures var s, f := After(zones, run), After(zones, run).flows[id];
            var before := Remote(s, f.apex);
            var writes := f.op.Append? || exists h :: h in before && h.kind == "TXT" && h.name == f.op.name;
            var run' := run + [Acquire(id)] + [Read(id, true)] + (if writes then [Write(id, true)] else []);
            && Legal(zones, run')
            && var s' := After(zones, run');
            && Remote(s', f.apex) == (if f.op.Append? then before + [f.op.host] else Perform(f.op, before))
            && (forall apex | apex != f.apex :: Remote(s', apex) == Remote(s, apex))
            && s'.holder == s.holder && s'.flows == s.flows[id := f.(phase := Finished)]
  {
    var s, f := After(zones, run), After(zones, run).flows[id];
    var before := Remote(s, f.apex);
    var writes := f.op.Append? || exists h :: h in before && h.kind == "TXT" && h.name == f.op.name;
    if f.op.DeleteTxt? {
      DeleteDeletes(before, f.op.name);
    }
    CycleSteps(s, id, writes);
    Extend(zones, run, Acquire(id));
    Extend(zones, run + [Acquire(id)], Read(id, true));
    if writes {
      Extend(zones, run + [Acquire(id)] + [Read(id, true)], Write(id, true));
    } else {
      assert run + [Acquire(id)] + [Read(id, true)] + [] == run + [Acquire(id)] + [Read(id, true)];
    }
  }

  lemma CycleSteps(s: State, id: nat, writes: bool)
    requires id in s.flows && s.flows[id].phase == Waiting && s.flows[id].apex !in s.holder
    requires var f, before := s.flows[id], Remote(s, s.flows[id].apex);
             writes <==> f.op.Append? || |Perform(f.op, before)| != |before|
    ensures Enabled(s, Acquire(id)) && Enabled(Apply(s, Acquire(id)), Read(id, true))
    ensures var f, s2 := s.flows[id], Apply(Apply(s, Acquire(id)), Read(id, true));
            && (writes ==> Enabled(s2, Write(id, true)))
            && var s' := if writes then Apply(s2, Write(id, true)) else s2;
            && Remote(s', f.apex) == (if writes then Perform(f.op, Remote(s, f.apex)) else Remote(s, f.apex))
            && (forall apex | apex != f.apex :: Remote(s', apex) == Remote(s, apex))
            && s'.holder == s.holder && s'.flows == s.flows[id := f.(phase := Finished)]
  {
    var f := s.flows[id];
    assert s.holder[f.apex := id] - {f.apex} == s.holder;
  }

  // ----- everybody else's records

  /** Some operation of the list deletes records of this name and type. */
  predicate Targeted(ops: seq<Op>, h: Host) {
    exists op | op in ops :: op.DeleteTxt? && IsTxt(h, op.name)
  }

  /** The records no delete of the list is aimed at, in their order. */
  function Untargeted(hosts: seq<Host>, ops: seq<Op>): seq<Host> {
    if hosts == [] then []
    else if Targeted(ops, hosts[0]) then Untargeted(hosts[1..], ops)
    else [hosts[0]] + Untargeted(hosts[1..], ops)
  }

  /** What the operations append, in their order. */
  function Appended(ops: seq<Op>): seq<Host> {
    if ops == [] then [] else
    Appended(ops[..|ops| - 1]) + (if ops[|ops| - 1].Append? then [ops[|ops| - 1].host] else [])
  }

  lemma {:induction false} UntargetedAppend(hosts: seq<Host>, h: Host, ops: seq<Op>)
    ensures Untargeted(hosts + [h], ops) == Untargeted(hosts, ops) + (if Targeted(ops, h) then [] else [h])
  {
    if hosts == [] {
      assert hosts + [h] == [h];
    } else {
      assert (hosts + [h])[1..] == hosts[1..] + [h];
      UntargetedAppend(hosts[1..], h, ops);
    }
  }

  lemma {:induction false} UntargetedDrop(hosts: seq<Host>, name: string, ops: seq<Op>)
    requires DeleteTxt(name) in ops
    ensures Untargeted(DropTxt(hosts, name), ops) == Untargeted(hosts, ops)
  {
    if hosts != [] {
      UntargetedDrop(hosts[1..], name, ops);
      assert IsTxt(hosts[0], name) ==> Targeted(ops, hosts[0]);
    }
  }

  /** The records no delete is aimed at keep their values and their order, in front of all that is appended. */
  lemma {:induction false} OthersKept(ops: seq<Op>, all: seq<Op>, hosts: seq<Host>)
    requires forall op | op in ops :: op in all
    ensures Untargeted(Fold(ops, hosts), all) == Untargeted(hosts, all) + Untargeted(Appended(ops), all)
  {
    if ops != [] {
      var op, before := ops[|ops| - 1], ops[..|ops| - 1];
      OthersKept(before, all, hosts);
      match op
      case Append(h) =>
        UntargetedAppend(Fold(before, hosts), h, all);
        UntargetedAppend(Appended(before), h, all);
      case DeleteTxt(name) =>
        UntargetedDrop(Fold(before, hosts), name, all);
        assert Appended(ops) == Appended(before);
    }
  }

  /** So over every run the remote list still begins with what was there and nobody deleted. */
  lemma RemoteKeepsOthers(zones: map<string, seq<Host>>, run: seq<Event>, apex: string)
    requires Legal(zones, run)
    ensures var s, writers := After(zones, run), Writers(zones, run, apex);
            && (forall id | id in writers :: id in s.flows)
            && var ops := OpsOf(s.flows, writers);
               Untargeted(Remote(s, apex), ops)
               == Untargeted(if apex in zones then zones[apex] else [], ops) + Untargeted(Appended(ops), ops)
  {
    Serialisable(zones, run, apex);
    var ops := OpsOf(After(zones, run).flows, Writers(zones, run, apex));
    OthersKept(ops, ops, if apex in zones then zones[apex] else []);
  }
}
