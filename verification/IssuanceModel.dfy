/**
 Issuance flows on the one shared ACME client, against a CA that may do as it likes.

 A flow is one `order_cert` call; its phases are the awaits of gufo-acme's `sign` and of the client's overrides.
 */
module IssuanceModel {
  import opened Wrappers
  import Zones

  type Url = string

  datatype CaStatus = CaPending | CaProcessing | CaInvalid | CaValid

  /** An order at the CA, with the three URLs that name it. */
  datatype CaOrder = CaOrder(domain: string, finalize: Url, location: Url, certificate: Url, status: CaStatus,
      chain: string)

  datatype Phase =
    | Waiting
    | Locked
    | Opened(finalize: Url)
    | TxtSet(finalize: Url, value: string)
    | Authorized(finalize: Url)
    | Popped(finalize: Url, stored: Option<Url>)
    | Polling(uri: Url, left: nat)
    | Downloading(certificate: Url)
    | Done(chain: string)
    | Failed

  /** `caOrder` is the CA order the flow's own new-order request named; no step of the client reads it. */
  datatype Flow = Flow(domain: string, phase: Phase, caOrder: Option<nat>)

  type TxtKey = (string, string)

  datatype State = State(
    orderUrls: map<Url, Url>,
    holder: map<string, nat>,
    flows: map<nat, Flow>,
    txt: map<TxtKey, set<string>>,
    ca: map<nat, CaOrder>,
    zones: seq<string>)

  /** How the CA answers a finalize request. */
  datatype Reply =
    | Refused(orderNotReady: bool)
    | Taken(located: bool, certificateInBody: bool)

  datatype Event =
    | Begin(flow: nat, domain: string)
    | Acquire(flow: nat)
    | OpenOrder(flow: nat, order: nat, located: bool)
    | SkipChallenge(flow: nat)
    | SetTxt(flow: nat, value: string, applied: bool, ok: bool)
    | ClearTxt(flow: nat, applied: bool)
    | BeginFinalize(flow: nat)
    | FinalizeReply(flow: nat, order: nat, reply: Reply)
    | PollReply(flow: nat, order: nat)
    | Download(flow: nat, order: nat)
    | Fail(flow: nat)
    | CaCreate(order: nat, row: CaOrder)
    | CaUpdate(order: nat, status: CaStatus, chain: string)

  const POLL_ATTEMPTS: nat := 60

  predicate InSection(f: Flow) {
    !f.phase.Waiting? && !f.phase.Done? && !f.phase.Failed?
  }

  function KeyOf(s: State, domain: string): TxtKey {
    (Zones.Apex(domain, s.zones), Zones.RelativeName(domain, s.zones))
  }

  function TxtAt(s: State, key: TxtKey): set<string> {
    if key in s.txt then s.txt[key] else {}
  }

  function Move(s: State, f: nat, phase: Phase): State
    requires f in s.flows
  {
    s.(flows := s.flows[f := s.flows[f].(phase := phase)])
  }

  /** Leaving `async with client.domain_lock(domain)`, normally or by an exception. */
  function Leave(s: State, f: nat, phase: Phase): State
    requires f in s.flows
  {
    Move(s, f, phase).(holder := s.holder - {s.flows[f].domain})
  }

  predicate At(s: State, f: nat) {
    f in s.flows
  }

  predicate Enabled(s: State, e: Event) {
    match e
    case Begin(f, domain) => f !in s.flows && Zones.NoTrailingDot(domain)
    case Acquire(f) => At(s, f) && s.flows[f].phase.Waiting? && s.flows[f].domain !in s.holder
    case OpenOrder(f, c, _) => At(s, f) && s.flows[f].phase.Locked? && c in s.ca && s.ca[c].domain == s.flows[f].domain
    case SkipChallenge(f) => At(s, f) && s.flows[f].phase.Opened?
    case SetTxt(f, _, applied, ok) => At(s, f) && s.flows[f].phase.Opened? && (ok ==> applied)
    case ClearTxt(f, _) => At(s, f) && s.flows[f].phase.TxtSet?
    case BeginFinalize(f) => At(s, f) && s.flows[f].phase.Authorized?
    case FinalizeReply(f, c, reply) =>
      && At(s, f) && s.flows[f].phase.Popped? && c in s.ca && s.ca[c].finalize == s.flows[f].phase.finalize
      && (reply.Taken? && reply.certificateInBody ==> s.ca[c].status == CaValid)
    case PollReply(f, c) => At(s, f) && s.flows[f].phase.Polling? && c in s.ca
        && s.ca[c].location == s.flows[f].phase.uri
    case Download(f, c) =>
      At(s, f) && s.flows[f].phase.Downloading? && c in s.ca && s.ca[c].certificate == s.flows[f].phase.certificate
    case Fail(f) => At(s, f) && InSection(s.flows[f])
    case CaCreate(c, row) =>
      c !in s.ca && row.status != CaValid &&
      forall d | d in s.ca :: NoSharedUrl(s.ca[d], row)
    case CaUpdate(c, _, _) => c in s.ca && s.ca[c].status != CaValid
  }

  /** The order URL finalize_and_wait goes on with: the reply's, or the one captured at new-order. */
  function Resolve(stored: Option<Url>, reply: Reply, location: Url): Option<Url> {
    match reply
    case Refused(orderNotReady) => if orderNotReady then stored else None
    case Taken(located, _) => if located then Some(location) else stored
  }

  function Reply2Phase(stored: Option<Url>, reply: Reply, row: CaOrder): Phase {
    match Resolve(stored, reply, row.location)
    case Some(uri) => Polling(uri, POLL_ATTEMPTS)
    case None => if reply.Taken? && reply.certificateInBody then Downloading(row.certificate) else Failed
  }

  function Poll2Phase(uri: Url, left: nat, row: CaOrder): Phase {
    if row.status == CaValid then Downloading(row.certificate)
    else if row.status == CaInvalid || left <= 1 then Failed
    else Polling(uri, left - 1)
  }

  function Apply(s: State, e: Event): State
    requires Enabled(s, e)
  {
    match e
    case Begin(f, domain) => s.(flows := s.flows[f := Flow(domain, Waiting, None)])
    case Acquire(f) => Move(s, f, Locked).(holder := s.holder[s.flows[f].domain := f])
    case OpenOrder(f, c, located) =>
      var fin := s.ca[c].finalize;
      s.(flows := s.flows[f := s.flows[f].(phase := Opened(fin), caOrder := Some(c))],
         orderUrls := if located then s.orderUrls[fin := s.ca[c].location] else s.orderUrls)
    case SkipChallenge(f) => Move(s, f, Authorized(s.flows[f].phase.finalize))
    case SetTxt(f, value, applied, ok) =>
      var key := KeyOf(s, s.flows[f].domain);
      var s' := if applied then s.(txt := s.txt[key := TxtAt(s, key) + {value}]) else s;
      if ok then Move(s', f, TxtSet(s.flows[f].phase.finalize, value)) else Leave(s', f, Failed)
    case ClearTxt(f, applied) =>
      var key := KeyOf(s, s.flows[f].domain);
      var s' := if applied then s.(txt := s.txt[key := {}]) else s;
      Move(s', f, Authorized(s.flows[f].phase.finalize))
    case BeginFinalize(f) =>
      var fin := s.flows[f].phase.finalize;
      var stored := if fin in s.orderUrls then Some(s.orderUrls[fin]) else None;
      Move(s, f, Popped(fin, stored)).(orderUrls := s.orderUrls - {fin})
    case FinalizeReply(f, c, reply) =>
      var phase := Reply2Phase(s.flows[f].phase.stored, reply, s.ca[c]);
      if phase.Failed? then Leave(s, f, phase) else Move(s, f, phase)
    case PollReply(f, c) =>
      var phase := Poll2Phase(s.flows[f].phase.uri, s.flows[f].phase.left, s.ca[c]);
      if phase.Failed? then Leave(s, f, phase) else Move(s, f, phase)
    case Download(f, c) => Leave(s, f, Done(s.ca[c].chain))
    case Fail(f) => Leave(s, f, Failed)
    case CaCreate(c, row) => s.(ca := s.ca[c := row])
    case CaUpdate(c, status, chain) => s.(ca := s.ca[c := s.ca[c].(status := status, chain := chain)])
  }

  /** A new client object: no flow, no lock, an empty map; what is in DNS and at the CA is whatever was there. */
  ghost predicate Fresh(s: State) {
    s.orderUrls == map[] && s.holder == map[] && s.flows == map[] && UrlsNameOrders(s.ca)
  }

  /** Each of the CA's URLs names one order. */
  ghost predicate UrlsNameOrders(ca: map<nat, CaOrder>) {
    forall c, d | c in ca && d in ca && c != d :: NoSharedUrl(ca[c], ca[d])
  }

  predicate NoSharedUrl(row: CaOrder, row': CaOrder) {
    row.finalize != row'.finalize && row.location != row'.location && row.certificate != row'.certificate
  }

  /** Every captured URL is that of the order whose finalize URL it is kept under. */
  ghost predicate UrlsBelong(orderUrls: map<Url, Url>, ca: map<nat, CaOrder>) {
    && (forall c | c in ca && ca[c].finalize in orderUrls :: orderUrls[ca[c].finalize] == ca[c].location)
    && (forall u | u in orderUrls :: exists c :: c in ca && ca[c].finalize == u)
  }

  ghost predicate Legal(start: State, run: seq<Event>)
    decreases |run|, 0
  {
    run == [] || (Legal(start, run[..|run| - 1]) && Enabled(After(start, run[..|run| - 1]), run[|run| - 1]))
  }

  ghost function After(start: State, run: seq<Event>): State
    requires Legal(start, run)
    decreases |run|, 1
  {
    if run == [] then start else Apply(After(start, run[..|run| - 1]), run[|run| - 1])
  }
}
