/** That flows do return certificates: what the machine makes of the CA's answers, and that no flow is ever stuck. */
module IssuanceReturns {
  import opened Wrappers
  import opened IssuanceModel
  import opened IssuanceProofs
  import opened Sizes
  import AcmeClient
  import Zones

  // ----- continuing from a state

  lemma Extend(s: State, run: seq<Event>, e: Event)
    requires Legal(s, run) && Enabled(After(s, run), e)
    ensures Legal(s, run + [e]) && After(s, run + [e]) == Apply(After(s, run), e)
  {
    assert (run + [e])[..|run|] == run;
  }

  lemma First(s: State, e: Event)
    requires Enabled(s, e)
    ensures Legal(s, [e]) && After(s, [e]) == Apply(s, e)
  {
    Extend(s, [], e);
    assert [] + [e] == [e];
  }

  lemma {:induction false} Concat(s: State, run: seq<Event>, more: seq<Event>)
    requires Legal(s, run) && Legal(After(s, run), more)
    ensures Legal(s, run + more) && After(s, run + more) == After(After(s, run), more)
    decreases |more|
  {
    if more == [] {
      assert run + more == run;
    } else {
      var before := more[..|more| - 1];
      Concat(s, run, before);
      assert (run + more)[..|run + more| - 1] == run + before;
    }
  }

  // ----- the machine and the client agree

  /** The events that are `k` polls of an order the CA has not decided. */
  function PendingPolls(f: nat, c: nat, chain: string, k: nat): seq<Event> {
    if k == 0 then [] else PendingPolls(f, c, chain, k - 1) + [CaUpdate(c, CaProcessing, chain)] + [PollReply(f, c)]
  }

  /** The polls before the one that ends the waiting. */
  function Waits(answers: seq<AcmeClient.Answer>, n: nat): nat
    requires n <= |answers|
  {
    if n == 0 then 0
    else if Waits(answers, n - 1) < n - 1 || !answers[n - 1].StillPending? then Waits(answers, n - 1) else n
  }

  lemma {:induction false} WaitsIs(answers: seq<AcmeClient.Answer>, n: nat)
    requires n <= |answers|
    ensures Waits(answers, n) <= n && forall k | 0 <= k < Waits(answers, n) :: answers[k].StillPending?
    ensures Waits(answers, n) < n ==> !answers[Waits(answers, n)].StillPending?
    ensures AcmeClient.FirstEnd(answers, n)
         == if Waits(answers, n) < n then Some(answers[Waits(answers, n)]) else None
  {
    if n > 0 {
      WaitsIs(answers, n - 1);
    }
  }

  function Fetch(f: nat, c: nat, download: Option<string>): seq<Event> {
    if download.Some? then [Download(f, c)] else [Fail(f)]
  }

  /** The CA decides for the order, unless it has. */
  function Decide(c: nat, decided: bool, chain: string): seq<Event> {
    if decided then [] else [CaUpdate(c, CaValid, chain)]
  }

  /** The events that the poll which ends the waiting stands for. */
  function LastPoll(f: nat, c: nat, chain: string, decided: bool, answer: AcmeClient.Answer, download: Option<string>)
    : seq<Event>
  {
    match answer
    case StillPending => []
    case NowInvalid => [CaUpdate(c, CaInvalid, chain)] + [PollReply(f, c)]
    case NowValid(_) => Decide(c, decided, chain) + [PollReply(f, c)] + Fetch(f, c, download)
    case Raised => [Fail(f)]
  }

  function Polls(f: nat, c: nat, chain: string, decided: bool, answers: seq<AcmeClient.Answer>,
                 download: Option<string>): seq<Event>
    requires |answers| >= 60
  {
    var n := Waits(answers, 60);
    PendingPolls(f, c, chain, n)
    + if n < 60 then LastPoll(f, c, chain, decided, answers[n], download) else []
  }

  ghost predicate Asking(s: State, f: nat, c: nat, chain: string) {
    && f in s.flows && c in s.ca
    && (s.ca[c].status == CaValid ==> s.ca[c].chain == chain)
  }

  /** The phase is the client's result. */
  predicate Means(p: Phase, r: Result<string, AcmeClient.AcmeError>) {
    match r case Ok(chain) => p == Done(chain) case Err(_) => p == Failed
  }

  lemma {:induction false} PendingPollsRun(s: State, f: nat, c: nat, chain: string, k: nat)
    requires Asking(s, f, c, chain) && s.flows[f].phase == Polling(s.ca[c].location, 60) && k <= 60
    requires k > 0 ==> s.ca[c].status != CaValid
    ensures Legal(s, PendingPolls(f, c, chain, k))
    ensures var s' := After(s, PendingPolls(f, c, chain, k));
            && f in s'.flows && c in s'.ca
            && s'.ca[c] == (if k == 0 then s.ca[c] else s.ca[c].(status := CaProcessing, chain := chain))
            && s'.flows[f].phase == (if k < 60 then Polling(s.ca[c].location, 60 - k) else Failed)
  {
    if k > 0 {
      PendingPollsRun(s, f, c, chain, k - 1);
      var before := PendingPolls(f, c, chain, k - 1);
      PendingPollRuns(s, before, f, c, chain, s.ca[c].location);
    }
  }

  lemma PendingPollRuns(s: State, run: seq<Event>, f: nat, c: nat, chain: string, uri: Url)
    requires Legal(s, run)
    requires var t := After(s, run);
             && f in t.flows && c in t.ca && t.ca[c].status != CaValid && t.ca[c].location == uri
             && t.flows[f].phase.Polling? && t.flows[f].phase.uri == uri
    ensures var run' := run + [CaUpdate(c, CaProcessing, chain)] + [PollReply(f, c)];
            && Legal(s, run')
            && var t, t' := After(s, run), After(s, run');
            && f in t'.flows && c in t'.ca && t'.ca[c] == t.ca[c].(status := CaProcessing, chain := chain)
            && t'.flows[f].phase
               == (if t.flows[f].phase.left > 1 then Polling(uri, t.flows[f].phase.left - 1) else Failed)
  {
    Extend(s, run, CaUpdate(c, CaProcessing, chain));
    Extend(s, run + [CaUpdate(c, CaProcessing, chain)], PollReply(f, c));
  }

  lemma FetchRuns(s: State, f: nat, c: nat, chain: string, download: Option<string>)
    requires Asking(s, f, c, chain) && s.ca[c].status == CaValid && s.flows[f].phase == Downloading(s.ca[c].certificate)
    ensures Legal(s, Fetch(f, c, download))
    ensures var s' := After(s, Fetch(f, c, download));
            f in s'.flows && s'.flows[f].phase == if download.Some? then Done(chain) else Failed
  {
    First(s, if download.Some? then Download(f, c) else Fail(f));
  }

  lemma DecideRuns(s: State, c: nat, chain: string)
    requires c in s.ca && (s.ca[c].status == CaValid ==> s.ca[c].chain == chain)
    ensures var run := Decide(c, s.ca[c].status == CaValid, chain);
            Legal(s, run) && After(s, run) == s.(ca := s.ca[c := s.ca[c].(status := CaValid, chain := chain)])
  {
    if s.ca[c].status != CaValid {
      First(s, CaUpdate(c, CaValid, chain));
    } else {
      assert s.ca[c].(status := CaValid, chain := chain) == s.ca[c];
      assert s.ca[c := s.ca[c]] == s.ca;
    }
  }

  lemma LastPollRuns(s: State, f: nat, c: nat, chain: string, answer: AcmeClient.Answer, download: Option<string>)
    requires Asking(s, f, c, chain) && s.flows[f].phase.Polling? && s.flows[f].phase.uri == s.ca[c].location
    requires !answer.StillPending? && (s.ca[c].status == CaValid ==> answer.NowValid?)
    ensures var run := LastPoll(f, c, chain, s.ca[c].status == CaValid, answer, download);
            && Legal(s, run)
            && f in After(s, run).flows
            && After(s, run).flows[f].phase == if answer.NowValid? && download.Some? then Done(chain) else Failed
  {
    match answer
    case NowInvalid => InvalidRuns(s, f, c, chain);
    case Raised => First(s, Fail(f));
    case NowValid(_) =>
      ValidRuns(s, f, c, chain);
      var polled := Decide(c, s.ca[c].status == CaValid, chain) + [PollReply(f, c)];
      FetchRuns(After(s, polled), f, c, chain, download);
      Concat(s, polled, Fetch(f, c, download));
  }

  lemma InvalidRuns(s: State, f: nat, c: nat, chain: string)
    requires Asking(s, f, c, chain) && s.flows[f].phase.Polling? && s.flows[f].phase.uri == s.ca[c].location
    requires s.ca[c].status != CaValid
    ensures var run := [CaUpdate(c, CaInvalid, chain)] + [PollReply(f, c)];
            Legal(s, run) && f in After(s, run).flows && After(s, run).flows[f].phase == Failed
  {
    First(s, CaUpdate(c, CaInvalid, chain));
    Extend(s, [CaUpdate(c, CaInvalid, chain)], PollReply(f, c));
  }

  lemma ValidRuns(s: State, f: nat, c: nat, chain: string)
    requires Asking(s, f, c, chain) && s.flows[f].phase.Polling? && s.flows[f].phase.uri == s.ca[c].location
    ensures var run := Decide(c, s.ca[c].status == CaValid, chain) + [PollReply(f, c)];
            && Legal(s, run)
            && var s' := After(s, run);
               Asking(s', f, c, chain) && s'.ca[c].status == CaValid
               && s'.flows[f].phase == Downloading(s'.ca[c].certificate)
  {
    DecideRuns(s, c, chain);
    Extend(s, Decide(c, s.ca[c].status == CaValid, chain), PollReply(f, c));
  }

  lemma PollsRun(s: State, f: nat, c: nat, chain: string, answers: seq<AcmeClient.Answer>, download: Option<string>)
    requires |answers| >= 60
    requires Asking(s, f, c, chain) && s.flows[f].phase == Polling(s.ca[c].location, 60)
    requires s.ca[c].status == CaValid ==> answers[0].NowValid?
    ensures var run := Polls(f, c, chain, s.ca[c].status == CaValid, answers, download);
            && Legal(s, run)
            && f in After(s, run).flows
            && var end := AcmeClient.FirstEnd(answers, 60);
               After(s, run).flows[f].phase
               == if end.Some? && end.value.NowValid? && download.Some? then Done(chain) else Failed
  {
    var n := Waits(answers, 60);
    WaitsIs(answers, 60);
    PendingPollsRun(s, f, c, chain, n);
    var pending := PendingPolls(f, c, chain, n);
    if n < 60 {
      LastPollRuns(After(s, pending), f, c, chain, answers[n], download);
      Concat(s, pending, LastPoll(f, c, chain, s.ca[c].status == CaValid, answers[n], download));
    } else {
      assert pending + [] == pending;
    }
  }

  predicate InBody(reply: AcmeClient.FinalizeReply) {
    reply.Accepted? && reply.bodyCertificate.Some?
  }

  function Opening(f: nat, c: nat, row: CaOrder, reply: AcmeClient.FinalizeReply): seq<Event> {
    (if InBody(reply) then Decide(c, row.status == CaValid, row.chain) else [])
    + [FinalizeReply(f, c, AcmeClient.ModelReply(reply))]
  }

  function Ending(f: nat, c: nat, row: CaOrder, stored: Option<Url>, reply: AcmeClient.FinalizeReply,
                  answers: seq<AcmeClient.Answer>, download: Option<string>): seq<Event>
    requires |answers| >= 60
  {
    match Resolve(stored, AcmeClient.ModelReply(reply), row.location)
    case Some(_) => Polls(f, c, row.chain, row.status == CaValid || InBody(reply), answers, download)
    case None => if InBody(reply) then Fetch(f, c, download) else []
  }

  /** The events that finalizing order `c` stands for, when the CA answers as given. */
  function Script(f: nat, c: nat, row: CaOrder, stored: Option<Url>, reply: AcmeClient.FinalizeReply,
                  answers: seq<AcmeClient.Answer>, download: Option<string>): seq<Event>
    requires |answers| >= 60
  {
    Opening(f, c, row, reply) + Ending(f, c, row, stored, reply, answers, download)
  }

  lemma ReplyRuns(s: State, f: nat, c: nat, row: CaOrder, stored: Option<Url>, reply: AcmeClient.FinalizeReply)
    requires Asking(s, f, c, row.chain) && row == s.ca[c].(chain := row.chain)
    requires s.flows[f].phase == Popped(row.finalize, stored)
    ensures Legal(s, Opening(f, c, row, reply))
    ensures var s' := After(s, Opening(f, c, row, reply));
            && Asking(s', f, c, row.chain) && s'.ca[c].location == row.location
            && s'.ca[c].certificate == row.certificate
            && (s'.ca[c].status == CaValid <==> row.status == CaValid || InBody(reply))
            && s'.flows[f].phase == Reply2Phase(stored, AcmeClient.ModelReply(reply), row)
  {
    var opening := if InBody(reply) then Decide(c, row.status == CaValid, row.chain) else [];
    if InBody(reply) {
      DecideRuns(s, c, row.chain);
    }
    ReplyStep(After(s, opening), f, c, stored, AcmeClient.ModelReply(reply));
    Extend(s, opening, FinalizeReply(f, c, AcmeClient.ModelReply(reply)));
  }

  lemma ReplyStep(s: State, f: nat, c: nat, stored: Option<Url>, reply: Reply)
    requires f in s.flows && c in s.ca && s.flows[f].phase == Popped(s.ca[c].finalize, stored)
    requires reply.Taken? && reply.certificateInBody ==> s.ca[c].status == CaValid
    ensures Enabled(s, FinalizeReply(f, c, reply))
    ensures var s' := Apply(s, FinalizeReply(f, c, reply));
            f in s'.flows && s'.flows[f].phase == Reply2Phase(stored, reply, s.ca[c]) && s'.ca == s.ca
  {
  }

  /**
   From the moment its URL is taken out of the map, a flow of the machine ends exactly as finalize_and_wait does on
   the same answers: it is done with the chain that the client returns, and failed when the client raises.
   */
  lemma RunsAsOutcome(s: State, f: nat, c: nat, row: CaOrder, stored: Option<Url>, reply: AcmeClient.FinalizeReply,
                      answers: Url -> seq<AcmeClient.Answer>, chains: AcmeClient.Downloads)
    requires forall u :: |answers(u)| >= 60
    requires Asking(s, f, c, row.chain) && row == s.ca[c].(chain := row.chain)
    requires s.flows[f].phase == Popped(row.finalize, stored) && (stored.Some? ==> stored.value == row.location)
    requires AcmeClient.About(row, reply, answers, chains)
    requires row.status == CaValid || InBody(reply) ==> answers(row.location)[0].NowValid?
    ensures var run := Script(f, c, row, stored, reply, answers(row.location), chains(row.certificate));
            && Legal(s, run)
            && f in After(s, run).flows
            && Means(After(s, run).flows[f].phase, AcmeClient.Outcome(stored, reply, answers, chains))
  {
    ReplyRuns(s, f, c, row, stored, reply);
    var s', download := After(s, Opening(f, c, row, reply)), chains(row.certificate);
    EndingRuns(s', f, c, row, stored, reply, answers(row.location), download);
    OutcomeAbout(row, stored, reply, answers, chains);
    Concat(s, Opening(f, c, row, reply), Ending(f, c, row, stored, reply, answers(row.location), download));
  }

  lemma EndingRuns(s: State, f: nat, c: nat, row: CaOrder, stored: Option<Url>, reply: AcmeClient.FinalizeReply,
                   answers: seq<AcmeClient.Answer>, download: Option<string>)
    requires |answers| >= 60
    requires Asking(s, f, c, row.chain) && s.ca[c].location == row.location && s.ca[c].certificate == row.certificate
    requires s.flows[f].phase == Reply2Phase(stored, AcmeClient.ModelReply(reply), row)
    requires stored.Some? ==> stored.value == row.location
    requires s.ca[c].status == CaValid <==> row.status == CaValid || InBody(reply)
    requires s.ca[c].status == CaValid ==> answers[0].NowValid?
    ensures var run, end := Ending(f, c, row, stored, reply, answers, download), AcmeClient.FirstEnd(answers, 60);
            var given := if Resolve(stored, AcmeClient.ModelReply(reply), row.location).Some?
                         then end.Some? && end.value.NowValid? else InBody(reply);
            && Legal(s, run)
            && f in After(s, run).flows
            && After(s, run).flows[f].phase == if given && download.Some? then Done(row.chain) else Failed
  {
    match Resolve(stored, AcmeClient.ModelReply(reply), row.location)
    case Some(_) => PollsRun(s, f, c, row.chain, answers, download);
    case None =>
      if InBody(reply) {
        FetchRuns(s, f, c, row.chain, download);
      }
  }

  /** What the client makes of answers that are about the order. */
  lemma OutcomeAbout(row: CaOrder, stored: Option<Url>, reply: AcmeClient.FinalizeReply,
                     answers: Url -> seq<AcmeClient.Answer>, chains: AcmeClient.Downloads)
    requires forall u :: |answers(u)| >= 60
    requires (stored.Some? ==> stored.value == row.location) && AcmeClient.About(row, reply, answers, chains)
    ensures var end, download := AcmeClient.FirstEnd(answers(row.location), 60), chains(row.certificate);
            var given := if Resolve(stored, AcmeClient.ModelReply(reply), row.location).Some?
                         then end.Some? && end.value.NowValid? else InBody(reply);
            Means(if given && download.Some? then Done(row.chain) else Failed,
                  AcmeClient.Outcome(stored, reply, answers, chains))
  {
    WaitsIs(answers(row.location), 60);
  }

  // ----- no flow is stuck

  /** Some continuation ends with the flow returning a chain. */
  ghost predicate CanReturn(s: State, f: nat) {
    exists more :: Legal(s, more) && f in After(s, more).flows && After(s, more).flows[f].phase.Done?
  }

  lemma After1(s: State, f: nat, e: Event)
    requires Enabled(s, e) && CanReturn(Apply(s, e), f)
    ensures CanReturn(s, f)
  {
    First(s, e);
    var more :| Legal(Apply(s, e), more) && f in After(Apply(s, e), more).flows
                && After(Apply(s, e), more).flows[f].phase.Done?;
    Concat(s, [e], more);
  }

  lemma Already(s: State, f: nat)
    requires f in s.flows && s.flows[f].phase.Done?
    ensures CanReturn(s, f)
  {
    assert Legal(s, []) && After(s, []) == s;
  }

  ghost predicate Ours(s: State, f: nat, c: nat) {
    f in s.flows && c in s.ca && s.flows[f].caOrder == Some(c)
  }

  lemma DownloadReturns(s: State, f: nat, c: nat)
    requires Ours(s, f, c) && s.flows[f].phase == Downloading(s.ca[c].certificate)
    ensures CanReturn(s, f)
  {
    Already(Apply(s, Download(f, c)), f);
    After1(s, f, Download(f, c));
  }

  lemma PollReturns(s: State, f: nat, c: nat)
    requires Ours(s, f, c) && s.flows[f].phase.Polling? && s.flows[f].phase.uri == s.ca[c].location
    ensures CanReturn(s, f)
  {
    var valid := if s.ca[c].status == CaValid then s else Apply(s, CaUpdate(c, CaValid, "chain"));
    DownloadReturns(Apply(valid, PollReply(f, c)), f, c);
    After1(valid, f, PollReply(f, c));
    if s.ca[c].status != CaValid {
      After1(s, f, CaUpdate(c, CaValid, "chain"));
    }
  }

  lemma FinalizeReturns(s: State, f: nat, c: nat)
    requires Ours(s, f, c) && s.flows[f].phase.Popped? && s.flows[f].phase.finalize == s.ca[c].finalize
    ensures CanReturn(s, f)
  {
    PollReturns(Apply(s, FinalizeReply(f, c, Taken(true, false))), f, c);
    After1(s, f, FinalizeReply(f, c, Taken(true, false)));
  }

  lemma AuthorizedReturns(s: State, f: nat, c: nat)
    requires Ours(s, f, c) && s.flows[f].phase == Authorized(s.ca[c].finalize)
    ensures CanReturn(s, f)
  {
    FinalizeReturns(Apply(s, BeginFinalize(f)), f, c);
    After1(s, f, BeginFinalize(f));
  }

  lemma OpenedReturns(s: State, f: nat, c: nat)
    requires Ours(s, f, c)
    requires s.flows[f].phase == Opened(s.ca[c].finalize)
             || (s.flows[f].phase.TxtSet? && s.flows[f].phase.finalize == s.ca[c].finalize)
    ensures CanReturn(s, f)
  {
    var e := if s.flows[f].phase.Opened? then SkipChallenge(f) else ClearTxt(f, true);
    AuthorizedReturns(Apply(s, e), f, c);
    After1(s, f, e);
  }

  /** A URL that names no order at the CA. */
  lemma FreshUrl(ca: map<nat, CaOrder>) returns (url: Url)
    ensures forall d | d in ca :: ca[d].finalize != url && ca[d].location != url && ca[d].certificate != url
  {
    var used := (set d | d in ca :: ca[d].finalize) + (set d | d in ca :: ca[d].location)
                + (set d | d in ca :: ca[d].certificate);
    url := Unused(used);
    forall d | d in ca ensures ca[d].finalize != url && ca[d].location != url && ca[d].certificate != url {
      assert ca[d].finalize in used && ca[d].location in used && ca[d].certificate in used;
    }
  }

  lemma LockedReturns(s: State, f: nat)
    requires f in s.flows && s.flows[f].phase.Locked?
    ensures CanReturn(s, f)
  {
    var url := FreshUrl(s.ca);
    var c := UnusedNumber(s.ca.Keys);
    var create := CaCreate(c, CaOrder(s.flows[f].domain, url, url, url, CaPending, ""));
    var created := Apply(s, create);
    OpenedReturns(Apply(created, OpenOrder(f, c, true)), f, c);
    After1(created, f, OpenOrder(f, c, true));
    After1(s, f, create);
  }

  lemma WaitingReturns(s: State, f: nat)
    requires Exclusive(s) && f in s.flows && s.flows[f].phase.Waiting?
    ensures CanReturn(s, f)
  {
    var d := s.flows[f].domain;
    var free := if d in s.holder then Apply(s, Fail(s.holder[d])) else s;
    LockedReturns(Apply(free, Acquire(f)), f);
    After1(free, f, Acquire(f));
    if d in s.holder {
      After1(s, f, Fail(s.holder[d]));
    }
  }

  lemma NotFailedReturns(s: State, f: nat)
    requires Exclusive(s) && Named(s) && f in s.flows && !s.flows[f].phase.Failed?
    ensures CanReturn(s, f)
  {
    assert FlowNamed(s, f);
    match s.flows[f].phase
    case Waiting => WaitingReturns(s, f);
    case Locked => LockedReturns(s, f);
    case Opened(_) => OpenedReturns(s, f, s.flows[f].caOrder.value);
    case TxtSet(_, _) => OpenedReturns(s, f, s.flows[f].caOrder.value);
    case Authorized(_) => AuthorizedReturns(s, f, s.flows[f].caOrder.value);
    case Popped(_, _) => FinalizeReturns(s, f, s.flows[f].caOrder.value);
    case Polling(_, _) => PollReturns(s, f, s.flows[f].caOrder.value);
    case Downloading(_) => DownloadReturns(s, f, s.flows[f].caOrder.value);
    case Done(_) => Already(s, f);
  }

  lemma {:induction false} FailedForever(s: State, more: seq<Event>, f: nat)
    requires Legal(s, more) && f in s.flows && s.flows[f].phase.Failed?
    ensures f in After(s, more).flows && After(s, more).flows[f].phase.Failed?
    decreases |more|
  {
    if more != [] {
      var before := more[..|more| - 1];
      FailedForever(s, before, f);
      FailedStep(After(s, before), more[|more| - 1], f);
    }
  }

  lemma FailedStep(s: State, e: Event, f: nat)
    requires Enabled(s, e) && f in s.flows && s.flows[f].phase.Failed?
    ensures f in Apply(s, e).flows && Apply(s, e).flows[f].phase.Failed?
  {
    if OfFlow(e) {
      FlowShaped(s, e);
    }
  }

  /** In every reachable state a flow can still return a certificate exactly if it has not failed. */
  lemma ReturnsUnlessFailed(start: State, run: seq<Event>, f: nat)
    requires Fresh(start) && Legal(start, run) && f in After(start, run).flows
    ensures (exists more :: Legal(start, run + more) && f in After(start, run + more).flows
                            && After(start, run + more).flows[f].phase.Done?)
            <==> !After(start, run).flows[f].phase.Failed?
  {
    var s := After(start, run);
    RunSound(start, run);
    if !s.flows[f].phase.Failed? {
      NotFailedReturns(s, f);
      var more :| Legal(s, more) && f in After(s, more).flows && After(s, more).flows[f].phase.Done?;
      Concat(start, run, more);
    } else {
      forall more | Legal(start, run + more) && f in After(start, run + more).flows
        ensures !After(start, run + more).flows[f].phase.Done?
      {
        Split(start, run, more);
        FailedForever(s, more, f);
      }
    }
  }

  lemma {:induction false} Split(s: State, run: seq<Event>, more: seq<Event>)
    requires Legal(s, run + more)
    ensures Legal(s, run) && Legal(After(s, run), more) && After(s, run + more) == After(After(s, run), more)
    decreases |more|
  {
    if more == [] {
      assert run + more == run;
    } else {
      assert (run + more)[..|run + more| - 1] == run + more[..|more| - 1];
      Split(s, run, more[..|more| - 1]);
    }
  }

  // ----- the TXT records

  /** A set adds its value at its own name and a clear empties it; nothing else in DNS changes. */
  lemma TxtEffect(s: State, e: Event)
    requires Enabled(s, e) && OfFlow(e)
    ensures var s', key := Apply(s, e), KeyOf(s, s.flows[e.flow].domain);
            && TxtAt(s', key) == (if e.SetTxt? && e.applied then TxtAt(s, key) + {e.value}
                                  else if e.ClearTxt? && e.applied then {} else TxtAt(s, key))
            && forall other | other != key :: TxtAt(s', other) == TxtAt(s, other)
  {
  }
}
