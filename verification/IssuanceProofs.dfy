/** What holds for every interleaving of issuance flows on the shared client. */
module IssuanceProofs {
  import opened Wrappers
  import opened IssuanceModel
  import Zones

  // ----- one flow a domain

  ghost predicate Exclusive(s: State) {
    && (forall f | f in s.flows && InSection(s.flows[f]) ::
          s.flows[f].domain in s.holder && s.holder[s.flows[f].domain] == f)
    && (forall d | d in s.holder ::
          s.holder[d] in s.flows && InSection(s.flows[s.holder[d]]) && s.flows[s.holder[d]].domain == d)
    && (forall f | f in s.flows :: Zones.NoTrailingDot(s.flows[f].domain))
  }

  predicate OfFlow(e: Event) {
    !e.Begin? && !e.CaCreate? && !e.CaUpdate?
  }

  /** A flow's step changes that flow, its domain's lock, and nothing of any other flow or of the CA. */
  ghost predicate Shaped(s: State, s': State, f: nat) {
    && f in s.flows && f in s'.flows
    && s'.flows == s.flows[f := s'.flows[f]]
    && s'.flows[f].domain == s.flows[f].domain
    && s'.ca == s.ca && s'.zones == s.zones
    && s'.holder == (if !InSection(s'.flows[f]) then s.holder - {s.flows[f].domain}
                     else if !InSection(s.flows[f]) then s.holder[s.flows[f].domain := f]
                     else s.holder)
  }

  lemma DnsShaped(s: State, e: Event)
    requires Enabled(s, e) && (e.SetTxt? || e.ClearTxt?)
    ensures Shaped(s, Apply(s, e), e.flow) && InSection(s.flows[e.flow])
  {
  }

  lemma ReplyShaped(s: State, e: Event)
    requires Enabled(s, e) && (e.FinalizeReply? || e.PollReply? || e.Download? || e.Fail?)
    ensures Shaped(s, Apply(s, e), e.flow) && InSection(s.flows[e.flow])
  {
  }

  lemma FlowShaped(s: State, e: Event)
    requires Enabled(s, e) && OfFlow(e)
    ensures Shaped(s, Apply(s, e), e.flow)
    ensures if e.Acquire? then s.flows[e.flow].phase.Waiting? && s.flows[e.flow].domain !in s.holder
            else InSection(s.flows[e.flow])
  {
    match e
    case SetTxt(_, _, _, _) => DnsShaped(s, e);
    case ClearTxt(_, _) => DnsShaped(s, e);
    case FinalizeReply(_, _, _) => ReplyShaped(s, e);
    case PollReply(_, _) => ReplyShaped(s, e);
    case Download(_, _) => ReplyShaped(s, e);
    case Fail(_) => ReplyShaped(s, e);
    case _ =>
  }

  lemma ShapedExclusive(s: State, s': State, f: nat)
    requires Exclusive(s) && Shaped(s, s', f)
    requires InSection(s.flows[f]) || s.flows[f].domain !in s.holder
    ensures Exclusive(s')
  {
  }

  lemma StepExclusive(s: State, e: Event)
    requires Exclusive(s) && Enabled(s, e)
    ensures Exclusive(Apply(s, e))
  {
    if OfFlow(e) {
      FlowShaped(s, e);
      ShapedExclusive(s, Apply(s, e), e.flow);
    }
  }

  // ----- URLs

  predicate PhaseNames(p: Phase, row: CaOrder) {
    match p
    case Opened(fin) => fin == row.finalize
    case TxtSet(fin, _) => fin == row.finalize
    case Authorized(fin) => fin == row.finalize
    case Popped(fin, stored) => fin == row.finalize && (stored.Some? ==> stored.value == row.location)
    case Polling(uri, _) => uri == row.location
    case Downloading(url) => url == row.certificate && row.status == CaValid
    case Done(chain) => chain == row.chain && row.status == CaValid
    case _ => true
  }

  predicate PastOpening(p: Phase) {
    !p.Waiting? && !p.Locked? && !p.Failed?
  }

  ghost predicate FlowNamed(s: State, f: nat)
    requires f in s.flows
  {
    PastOpening(s.flows[f].phase) ==>
      s.flows[f].caOrder.Some? && s.flows[f].caOrder.value in s.ca
      && s.ca[s.flows[f].caOrder.value].domain == s.flows[f].domain
      && PhaseNames(s.flows[f].phase, s.ca[s.flows[f].caOrder.value])
  }

  /** Everything a flow holds names the order it opened, and every captured URL is its order's. */
  ghost predicate Named(s: State) {
    && UrlsNameOrders(s.ca)
    && (forall f | f in s.flows :: FlowNamed(s, f))
    && UrlsBelong(s.orderUrls, s.ca)
  }

  /** New orders at the CA, and new statuses of old ones, leave what flows hold untouched. */
  ghost predicate CaGrows(ca: map<nat, CaOrder>, ca': map<nat, CaOrder>) {
    forall c | c in ca ::
      && c in ca' && ca'[c].domain == ca[c].domain
      && ca'[c].finalize == ca[c].finalize && ca'[c].location == ca[c].location
          && ca'[c].certificate == ca[c].certificate
      && (ca[c].status == CaValid ==> ca'[c] == ca[c])
  }

  lemma CreateGrows(ca: map<nat, CaOrder>, c: nat, row: CaOrder)
    requires UrlsNameOrders(ca) && c !in ca && forall d | d in ca :: NoSharedUrl(ca[d], row)
    ensures CaGrows(ca, ca[c := row]) && UrlsNameOrders(ca[c := row])
  {
  }

  lemma UpdateGrows(ca: map<nat, CaOrder>, c: nat, status: CaStatus, chain: string)
    requires UrlsNameOrders(ca) && c in ca && ca[c].status != CaValid
    ensures CaGrows(ca, ca[c := ca[c].(status := status, chain := chain)])
    ensures UrlsNameOrders(ca[c := ca[c].(status := status, chain := chain)])
  {
  }

  lemma CaStepGrows(s: State, e: Event)
    requires UrlsNameOrders(s.ca) && Enabled(s, e) && (e.CaCreate? || e.CaUpdate?)
    ensures CaGrows(s.ca, Apply(s, e).ca) && UrlsNameOrders(Apply(s, e).ca)
    ensures Apply(s, e) == s.(ca := Apply(s, e).ca)
    ensures forall c | c in Apply(s, e).ca && c !in s.ca :: forall d | d in s.ca ::
            NoSharedUrl(s.ca[d], Apply(s, e).ca[c])
  {
    match e
    case CaCreate(c, row) => CreateGrows(s.ca, c, row);
    case CaUpdate(c, status, chain) => UpdateGrows(s.ca, c, status, chain);
  }

  lemma GrownFlows(s: State, s': State, f: nat)
    requires f in s.flows && FlowNamed(s, f) && CaGrows(s.ca, s'.ca) && s' == s.(ca := s'.ca)
    ensures FlowNamed(s', f)
  {
  }

  lemma GrownCaptures(s: State, s': State)
    requires UrlsBelong(s.orderUrls, s.ca) && CaGrows(s.ca, s'.ca) && s' == s.(ca := s'.ca)
    requires forall c | c in s'.ca && c !in s.ca :: forall d | d in s.ca :: NoSharedUrl(s.ca[d], s'.ca[c])
    ensures UrlsBelong(s'.orderUrls, s'.ca)
  {
    forall u | u in s'.orderUrls ensures exists c :: c in s'.ca && s'.ca[c].finalize == u {
      var c :| c in s.ca && s.ca[c].finalize == u;
      assert c in s'.ca && s'.ca[c].finalize == u;
    }
  }

  lemma CaNamed(s: State, e: Event)
    requires Named(s) && Enabled(s, e) && (e.CaCreate? || e.CaUpdate?)
    ensures Named(Apply(s, e))
  {
    var s' := Apply(s, e);
    CaStepGrows(s, e);
    forall f | f in s'.flows ensures FlowNamed(s', f) {
      GrownFlows(s, s', f);
    }
    GrownCaptures(s, s');
  }

  /** The reply to a finalize, a poll and a download all come from the order the flow opened. */
  lemma SameOrder(s: State, e: Event)
    requires Named(s) && Enabled(s, e) && (e.FinalizeReply? || e.PollReply? || e.Download?)
    ensures s.flows[e.flow].caOrder == Some(e.order)
  {
    assert FlowNamed(s, e.flow);
  }

  lemma FinalizeReplyNamed(s: State, e: Event)
    requires Named(s) && Enabled(s, e) && e.FinalizeReply?
    ensures FlowNamed(Apply(s, e), e.flow)
  {
    SameOrder(s, e);
    assert FlowNamed(s, e.flow);
    var row, stored := s.ca[e.order], s.flows[e.flow].phase.stored;
    assert PhaseNames(Reply2Phase(stored, e.reply, row), row);
    assert Apply(s, e).flows[e.flow] == s.flows[e.flow].(phase := Reply2Phase(stored, e.reply, row));
  }

  lemma PollNamed(s: State, e: Event)
    requires Named(s) && Enabled(s, e) && (e.PollReply? || e.Download?)
    ensures FlowNamed(Apply(s, e), e.flow)
  {
    SameOrder(s, e);
    assert FlowNamed(s, e.flow);
  }

  lemma ReplyNamed(s: State, e: Event)
    requires Named(s) && Enabled(s, e) && (e.FinalizeReply? || e.PollReply? || e.Download?)
    ensures FlowNamed(Apply(s, e), e.flow) && Apply(s, e).orderUrls == s.orderUrls
  {
    if e.FinalizeReply? {
      FinalizeReplyNamed(s, e);
    } else {
      PollNamed(s, e);
    }
  }

  lemma OtherNamed(s: State, e: Event)
    requires Named(s) && Enabled(s, e) && OfFlow(e) && !e.FinalizeReply? && !e.PollReply? && !e.Download?
    ensures FlowNamed(Apply(s, e), e.flow)
    ensures UrlsBelong(Apply(s, e).orderUrls, Apply(s, e).ca)
  {
    assert FlowNamed(s, e.flow);
    if e.OpenOrder? {
      OpenCaptured(s, e);
    } else if e.BeginFinalize? {
      PopCaptured(s, e);
    } else {
      assert Apply(s, e).orderUrls == s.orderUrls && Apply(s, e).ca == s.ca;
    }
  }

  lemma OpenCaptured(s: State, e: Event)
    requires Named(s) && Enabled(s, e) && e.OpenOrder?
    ensures UrlsBelong(Apply(s, e).orderUrls, Apply(s, e).ca)
  {
  }

  lemma PopCaptured(s: State, e: Event)
    requires Named(s) && Enabled(s, e) && e.BeginFinalize?
    ensures UrlsBelong(Apply(s, e).orderUrls, Apply(s, e).ca)
  {
  }

  lemma StepNamed(s: State, e: Event)
    requires Named(s) && Enabled(s, e)
    ensures Named(Apply(s, e))
  {
    var s' := Apply(s, e);
    if OfFlow(e) {
      FlowShaped(s, e);
      if e.FinalizeReply? || e.PollReply? || e.Download? {
        ReplyNamed(s, e);
      } else {
        OtherNamed(s, e);
      }
      forall f | f in s'.flows ensures FlowNamed(s', f) {
        assert f != e.flow ==> FlowNamed(s, f);
      }
    } else if e.Begin? {
      forall f | f in s'.flows ensures FlowNamed(s', f) {
        assert f != e.flow ==> FlowNamed(s, f);
      }
    } else {
      CaNamed(s, e);
    }
  }

  // ----- the map of captured order URLs

  /** The orders opened with a Location header and not finalized since. */
  ghost function Awaiting(start: State, run: seq<Event>): set<nat>
    requires Legal(start, run)
    decreases |run|
  {
    if run == [] then {} else
    var before, s, e := Awaiting(start, run[..|run| - 1]), After(start, run[..|run| - 1]), run[|run| - 1];
    if e.OpenOrder? && e.located then before + {e.order}
    else if e.BeginFinalize? && s.flows[e.flow].caOrder.Some? then before - {s.flows[e.flow].caOrder.value}
    else before
  }

  ghost predicate Captures(s: State, awaiting: set<nat>) {
    && (forall c | c in awaiting :: c in s.ca)
    && (forall c | c in s.ca :: s.ca[c].finalize in s.orderUrls <==> c in awaiting)
  }

  lemma QuietCaptures(s: State, e: Event, awaiting: set<nat>)
    requires Named(s) && Captures(s, awaiting) && Enabled(s, e)
    requires OfFlow(e) && !e.BeginFinalize? && !(e.OpenOrder? && e.located)
    ensures Captures(Apply(s, e), awaiting)
  {
    FlowShaped(s, e);
    if e.FinalizeReply? || e.PollReply? || e.Download? {
      ReplyNamed(s, e);
    } else {
      assert Apply(s, e).orderUrls == s.orderUrls;
    }
  }

  lemma OpenCaptures(s: State, e: Event, awaiting: set<nat>)
    requires Named(s) && Captures(s, awaiting) && Enabled(s, e) && e.OpenOrder? && e.located
    ensures Captures(Apply(s, e), awaiting + {e.order})
  {
  }

  lemma PopCaptures(s: State, e: Event, awaiting: set<nat>)
    requires Named(s) && Captures(s, awaiting) && Enabled(s, e) && e.BeginFinalize?
    ensures s.flows[e.flow].caOrder.Some? && Captures(Apply(s, e), awaiting - {s.flows[e.flow].caOrder.value})
  {
    assert FlowNamed(s, e.flow);
  }

  lemma CaCaptures(s: State, e: Event, awaiting: set<nat>)
    requires Named(s) && Captures(s, awaiting) && Enabled(s, e) && (e.CaCreate? || e.CaUpdate?)
    ensures Captures(Apply(s, e), awaiting)
  {
    CaStepGrows(s, e);
    var s' := Apply(s, e);
    assert forall c | c in s'.ca && c !in s.ca :: s'.ca[c].finalize !in s.orderUrls;
  }

  // ----- the TXT window

  ghost predicate Published(s: State) {
    forall f | f in s.flows && s.flows[f].phase.TxtSet? ::
        s.flows[f].phase.value in TxtAt(s, KeyOf(s, s.flows[f].domain))
  }

  lemma KeysDistinct(s: State, domain: string, domain': string)
    requires Zones.NoTrailingDot(domain) && Zones.NoTrailingDot(domain') && domain != domain'
    ensures KeyOf(s, domain) != KeyOf(s, domain')
  {
    if Zones.Apex(domain, s.zones) == Zones.Apex(domain', s.zones) {
      Zones.RelativeNamesDistinct(domain, domain', s.zones);
    }
  }

  lemma SetPublishes(s: State, e: Event)
    requires Published(s) && Enabled(s, e) && e.SetTxt?
    ensures Published(Apply(s, e))
  {
  }

  /** A clear deletes every TXT value at its name, and still no other flow's. */
  lemma ClearPublishes(s: State, e: Event)
    requires Exclusive(s) && Published(s) && Enabled(s, e) && e.ClearTxt?
    ensures Published(Apply(s, e))
  {
    var s' := Apply(s, e);
    forall g | g in s'.flows && s'.flows[g].phase.TxtSet?
      ensures s'.flows[g].phase.value in TxtAt(s', KeyOf(s', s'.flows[g].domain))
    {
      assert g != e.flow && InSection(s.flows[g]) && InSection(s.flows[e.flow]);
      KeysDistinct(s, s.flows[g].domain, s.flows[e.flow].domain);
    }
  }

  lemma OtherPublishes(s: State, e: Event)
    requires Published(s) && Enabled(s, e) && !e.SetTxt? && !e.ClearTxt?
    ensures Published(Apply(s, e))
  {
    if OfFlow(e) {
      FlowShaped(s, e);
      OtherTxt(s, e);
    }
  }

  lemma OtherTxt(s: State, e: Event)
    requires Enabled(s, e) && OfFlow(e) && !e.SetTxt? && !e.ClearTxt?
    ensures Apply(s, e).txt == s.txt && !Apply(s, e).flows[e.flow].phase.TxtSet?
  {
  }

  // ----- bounded polling

  function PollsOf(run: seq<Event>, f: nat): nat {
    if run == [] then 0
    else PollsOf(run[..|run| - 1], f) + (if run[|run| - 1].PollReply? && run[|run| - 1].flow == f then 1 else 0)
  }

  ghost predicate Budgeted(s: State, f: nat, polls: nat) {
    if f !in s.flows then polls == 0 else
    match s.flows[f].phase
    case Polling(_, left) => left > 0 && polls + left == POLL_ATTEMPTS
    case Downloading(_) => polls <= POLL_ATTEMPTS
    case Done(_) => polls <= POLL_ATTEMPTS
    case Failed => polls <= POLL_ATTEMPTS
    case _ => polls == 0
  }

  lemma StepBudgeted(s: State, e: Event, f: nat, polls: nat)
    requires Enabled(s, e) && Budgeted(s, f, polls)
    ensures Budgeted(Apply(s, e), f, if e.PollReply? && e.flow == f then polls + 1 else polls)
  {
    if OfFlow(e) && e.flow != f {
      FlowShaped(s, e);
    } else if OfFlow(e) {
      OwnBudgeted(s, e, polls);
    }
  }

  lemma OwnBudgeted(s: State, e: Event, polls: nat)
    requires Enabled(s, e) && OfFlow(e) && Budgeted(s, e.flow, polls)
    ensures Budgeted(Apply(s, e), e.flow, if e.PollReply? then polls + 1 else polls)
  {
  }

  // ----- runs

  ghost predicate Sound(start: State, run: seq<Event>)
    requires Legal(start, run)
  {
    var s := After(start, run);
    Exclusive(s) && Named(s) && Published(s) && Captures(s, Awaiting(start, run))
  }

  lemma StepCaptures(s: State, e: Event, awaiting: set<nat>)
    requires Named(s) && Captures(s, awaiting) && Enabled(s, e)
    ensures var awaiting' := if e.OpenOrder? && e.located then awaiting + {e.order}
                             else if e.BeginFinalize? && s.flows[e.flow].caOrder.Some?
                                 then awaiting - {s.flows[e.flow].caOrder.value}
                             else awaiting;
            Captures(Apply(s, e), awaiting')
  {
    if e.OpenOrder? && e.located {
      OpenCaptures(s, e, awaiting);
    } else if e.BeginFinalize? {
      PopCaptures(s, e, awaiting);
    } else if e.CaCreate? || e.CaUpdate? {
      CaCaptures(s, e, awaiting);
    } else if OfFlow(e) {
      QuietCaptures(s, e, awaiting);
    }
  }

  lemma {:induction false} RunSound(start: State, run: seq<Event>)
    requires Fresh(start) && Legal(start, run)
    ensures Sound(start, run)
    decreases |run|
  {
    if run != [] {
      var before, e := run[..|run| - 1], run[|run| - 1];
      var s := After(start, before);
      RunSound(start, before);
      StepExclusive(s, e);
      StepNamed(s, e);
      StepCaptures(s, e, Awaiting(start, before));
      if e.SetTxt? {
        SetPublishes(s, e);
      } else if e.ClearTxt? {
        ClearPublishes(s, e);
      } else {
        OtherPublishes(s, e);
      }
    }
  }

  /** At most one flow a domain is between its new-order and its certificate. */
  lemma OneFlowPerDomain(start: State, run: seq<Event>, f: nat, g: nat)
    requires Fresh(start) && Legal(start, run)
    requires var s := After(start, run);
             f in s.flows && g in s.flows && InSection(s.flows[f]) && InSection(s.flows[g])
                 && s.flows[f].domain == s.flows[g].domain
    ensures f == g
  {
    RunSound(start, run);
  }

  /** A waiting flow can go on unless a flow of its own domain is in its section; other domains never block it. */
  lemma OtherDomainsNeverBlock(start: State, run: seq<Event>, f: nat)
    requires Fresh(start) && Legal(start, run) && f in After(start, run).flows
             && After(start, run).flows[f].phase.Waiting?
    ensures var s := After(start, run);
            Enabled(s, Acquire(f)) <==> forall g | g in s.flows && InSection(s.flows[g]) ::
                s.flows[g].domain != s.flows[f].domain
  {
    RunSound(start, run);
  }

  /** From a flow's successful set to its own clear its TXT value is present, whatever other flows set and clear. */
  lemma TxtStays(start: State, run: seq<Event>, f: nat)
    requires Fresh(start) && Legal(start, run) && f in After(start, run).flows
             && After(start, run).flows[f].phase.TxtSet?
    ensures var s := After(start, run); s.flows[f].phase.value in TxtAt(s, KeyOf(s, s.flows[f].domain))
  {
    RunSound(start, run);
  }

  /**
   Whatever way finalize_and_wait took - the reply's Location, the captured URL, the recovery of an order already
   finalized, or a certificate in the reply - the chain returned is that of the CA order the flow itself opened for
   its domain.
   */
  lemma ReturnsOwnCertificate(start: State, run: seq<Event>, f: nat)
    requires Fresh(start) && Legal(start, run) && f in After(start, run).flows && After(start, run).flows[f].phase.Done?
    ensures var s, flow := After(start, run), After(start, run).flows[f];
            && flow.caOrder.Some? && flow.caOrder.value in s.ca
            && s.ca[flow.caOrder.value].domain == flow.domain
            && s.ca[flow.caOrder.value].status == CaValid && flow.phase.chain == s.ca[flow.caOrder.value].chain
  {
    RunSound(start, run);
    assert FlowNamed(After(start, run), f);
  }

  /** The map holds exactly the orders opened with a Location whose finalize never began, each with its own URL. */
  lemma MapHoldsUnfinalized(start: State, run: seq<Event>, url: Url)
    requires Fresh(start) && Legal(start, run)
    ensures var s := After(start, run);
            url in s.orderUrls <==>
            exists c :: c in Awaiting(start, run) && c in s.ca && s.ca[c].finalize == url
    ensures var s := After(start, run);
            forall c | c in Awaiting(start, run) ::
              c in s.ca && s.ca[c].finalize in s.orderUrls && s.orderUrls[s.ca[c].finalize] == s.ca[c].location
  {
    RunSound(start, run);
    var s := After(start, run);
    if url in s.orderUrls {
      var c :| c in s.ca && s.ca[c].finalize == url;
      assert c in Awaiting(start, run);
    }
  }

  /** No flow ever polls more often than the bound. */
  lemma {:induction false} PollsBounded(start: State, run: seq<Event>, f: nat)
    requires Fresh(start) && Legal(start, run)
    ensures Budgeted(After(start, run), f, PollsOf(run, f)) && PollsOf(run, f) <= 60
    decreases |run|
  {
    if run != [] {
      PollsBounded(start, run[..|run| - 1], f);
      StepBudgeted(After(start, run[..|run| - 1]), run[|run| - 1], f, PollsOf(run[..|run| - 1], f));
    }
  }
}
