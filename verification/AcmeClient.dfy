/** The shared ACME client: its lock registry, its map of order URLs, and the finalize that never loses an order. */
module AcmeClient {
  import opened Wrappers
  import opened IssuanceModel
  import Zones

  /** An asyncio.Lock; only its identity matters here. */
  class Lock {
    constructor () {}
  }

  datatype AcmeError = AcmeError(orderNotReady: bool) | OrderInvalid | NotInTime | NoOrderUrl | RequestFailed

  /** What one poll of an order URL reports, with the certificate URL once the order is valid, unless it raises. */
  datatype Answer = StillPending | NowInvalid | NowValid(certificate: Url) | Raised

  /** The finalize reply as the client sees it: an ACME error, headers and body, or no answer it can read. */
  datatype FinalizeReply =
    | Rejected(orderNotReady: bool)
    | Accepted(location: Option<Url>, bodyCertificate: Option<Url>)
    | Unread

  /** What a download of each certificate URL gives; None when it raises. */
  type Downloads = Url -> Option<string>

  /** The first answer that ends the polling, if one of the first `n` does. */
  function FirstEnd(answers: seq<Answer>, n: nat): Option<Answer>
    requires n <= |answers|
  {
    if n == 0 then None
    else if FirstEnd(answers, n - 1).Some? then FirstEnd(answers, n - 1)
    else if answers[n - 1].StillPending? then None else Some(answers[n - 1])
  }

  lemma {:induction false} FirstEndIs(answers: seq<Answer>, n: nat)
    requires n <= |answers|
    ensures FirstEnd(answers, n).None? <==> forall k | 0 <= k < n :: answers[k].StillPending?
    ensures FirstEnd(answers, n).Some? ==>
              exists k :: 0 <= k < n && answers[k] == FirstEnd(answers, n).value && !answers[k].StillPending?
                          && forall j | 0 <= j < k :: answers[j].StillPending?
  {
    if n > 0 {
      FirstEndIs(answers, n - 1);
      if FirstEnd(answers, n - 1).None? && !answers[n - 1].StillPending? {
        assert answers[n - 1] == FirstEnd(answers, n).value;
      }
    }
  }

  lemma {:induction false} FirstEndStays(answers: seq<Answer>, m: nat, n: nat)
    requires m <= n <= |answers| && FirstEnd(answers, m).Some?
    ensures FirstEnd(answers, n) == FirstEnd(answers, m)
    decreases n
  {
    if m < n {
      FirstEndStays(answers, m, n - 1);
    }
  }

  function Downloaded(content: Option<string>): Result<string, AcmeError> {
    match content case Some(chain) => Ok(chain) case None => Err(RequestFailed)
  }

  function Polled(end: Option<Answer>, chains: Downloads): Result<string, AcmeError> {
    match end
    case Some(NowValid(certificate)) => Downloaded(chains(certificate))
    case Some(NowInvalid) => Err(OrderInvalid)
    case Some(Raised) => Err(RequestFailed)
    case _ => Err(NotInTime)
  }

  function ModelReply(reply: FinalizeReply): Reply {
    match reply
    case Rejected(orderNotReady) => Refused(orderNotReady)
    case Accepted(location, body) => Taken(location.Some?, body.Some?)
    case Unread => Refused(false)
  }

  /** The order URL captured under the finalize URL, if any. */
  function Stored(orderUrls: map<Url, Url>, finalize: Url): Option<Url> {
    if finalize in orderUrls then Some(orderUrls[finalize]) else None
  }

  function LocationOf(reply: FinalizeReply): Url {
    match reply
    case Accepted(Some(location), _) => location
    case _ => ""
  }

  /** What a finalize leads to: polling the URL the issuance model resolves, or else the reply itself. */
  function Outcome(stored: Option<Url>, reply: FinalizeReply, answers: Url -> seq<Answer>, chains: Downloads)
    : Result<string, AcmeError>
    requires forall u :: |answers(u)| >= POLL_ATTEMPTS
  {
    match Resolve(stored, ModelReply(reply), LocationOf(reply))
    case Some(uri) => Polled(FirstEnd(answers(uri), POLL_ATTEMPTS), chains)
    case None =>
      match reply
      case Rejected(orderNotReady) => Err(AcmeError(orderNotReady))
      case Accepted(_, Some(certificate)) => Downloaded(chains(certificate))
      case Accepted(_, None) => Err(NoOrderUrl)
      case Unread => Err(RequestFailed)
  }

  /** The order's URL was captured, or is in the reply, and the reply does not rule the order out. */
  predicate KnowsUrl(stored: Option<Url>, reply: FinalizeReply) {
    match reply
    case Rejected(orderNotReady) => orderNotReady && stored.Some?
    case Accepted(location, _) => location.Some? || stored.Some?
    case Unread => false
  }

  predicate ValidFirstAt(answers: seq<Answer>, k: nat)
    requires k < |answers|
  {
    answers[k].NowValid? && forall j | 0 <= j < k :: answers[j].StillPending?
  }

  /** Within the bound some poll finds the order valid, and none before it finds it invalid or raises. */
  predicate ValidInTime(answers: seq<Answer>)
    requires |answers| >= POLL_ATTEMPTS
  {
    exists k | 0 <= k < POLL_ATTEMPTS :: ValidFirstAt(answers, k)
  }

  /** What the CA says in reply to a finalize, to the polls and to the downloads is about the order `row`. */
  ghost predicate About(row: CaOrder, reply: FinalizeReply, answers: Url -> seq<Answer>, chains: Downloads) {
    && (reply.Accepted? && reply.location.Some? ==> reply.location.value == row.location)
    && (reply.Accepted? && reply.bodyCertificate.Some? ==> reply.bodyCertificate.value == row.certificate)
    && (forall k | 0 <= k < |answers(row.location)| ::
          answers(row.location)[k].NowValid? ==> answers(row.location)[k].certificate == row.certificate)
    && (chains(row.certificate).Some? ==> chains(row.certificate).value == row.chain)
  }

  /** A chain is returned exactly then, and it is the order's. */
  ghost predicate OwnChain(r: Result<string, AcmeError>, row: CaOrder, stored: Option<Url>, reply: FinalizeReply,
                           answers: Url -> seq<Answer>, chains: Downloads)
    requires |answers(row.location)| >= POLL_ATTEMPTS
  {
    && (r.Ok? ==> r.value == row.chain)
    && (r.Ok? <==> chains(row.certificate).Some?
                   && if KnowsUrl(stored, reply) then ValidInTime(answers(row.location))
                      else reply.Accepted? && reply.bodyCertificate.Some?)
  }

  /**
   When every URL the client holds or is told belongs to one CA order, every way through finalize_and_wait that
   returns a chain returns that order's; and it returns one, within the bound, whenever the order is valid by
   then, its URL is known and the download succeeds - even if the CA refused the finalize because the order was no
   longer ready.
   */
  lemma OutcomeIsOwn(row: CaOrder, stored: Option<Url>, reply: FinalizeReply, answers: Url -> seq<Answer>,
      chains: Downloads)
    requires forall u :: |answers(u)| >= POLL_ATTEMPTS
    requires (stored.Some? ==> stored.value == row.location) && About(row, reply, answers, chains)
    ensures OwnChain(Outcome(stored, reply, answers, chains), row, stored, reply, answers, chains)
  {
    var seen := answers(row.location);
    FirstEndIs(seen, POLL_ATTEMPTS);
    if ValidInTime(seen) {
      var k :| 0 <= k < POLL_ATTEMPTS && ValidFirstAt(seen, k);
      FirstEndIs(seen, k);
      assert FirstEnd(seen, k + 1) == Some(seen[k]);
      FirstEndStays(seen, k + 1, POLL_ATTEMPTS);
    }
    if FirstEnd(seen, POLL_ATTEMPTS).Some? {
      var end := FirstEnd(seen, POLL_ATTEMPTS).value;
      var k :| 0 <= k < POLL_ATTEMPTS && seen[k] == end && !end.StillPending?
        && forall j | 0 <= j < k :: seen[j].StillPending?;
      assert end.NowValid? ==> ValidFirstAt(seen, k);
    }
  }

  /** A finalize that is refused because the order was finalized before still gives the certificate the order has. */
  lemma RecoversFinalized(uri: Url, answers: Url -> seq<Answer>, chains: Downloads, k: nat, chain: string)
    requires forall u :: |answers(u)| >= POLL_ATTEMPTS
    requires k < 60 && answers(uri)[k].NowValid? && (forall j | 0 <= j < k :: answers(uri)[j] == StillPending)
    requires chains(answers(uri)[k].certificate) == Some(chain)
    ensures Outcome(Some(uri), Rejected(true), answers, chains) == Ok(chain)
    ensures forall other :: Outcome(Some(uri), Accepted(None, other), answers, chains) == Ok(chain)
    ensures forall stored, other :: Outcome(stored, Accepted(Some(uri), other), answers, chains) == Ok(chain)
    ensures forall stored :: Outcome(stored, Rejected(false), answers, chains) == Err(AcmeError(false))
  {
    FirstEndIs(answers(uri), k);
    assert FirstEnd(answers(uri), k + 1) == Some(answers(uri)[k]);
    FirstEndStays(answers(uri), k + 1, POLL_ATTEMPTS);
  }

  class Client {
    const zones: seq<string>
    /** The TXT records the provider serves, by zone and relative name. */
    var txt: map<TxtKey, set<string>>
    var orderUrls: map<Url, Url>
    var domainLocks: map<string, Lock>

    constructor (zones: seq<string>, txt: map<TxtKey, set<string>>)
      ensures this.zones == zones && this.txt == txt && orderUrls == map[] && domainLocks == map[] && Registry()
    {
      this.zones, this.txt, this.orderUrls, this.domainLocks := zones, txt, map[], map[];
    }

    /** The zone a domain's challenge record goes to, and its name there. */
    function TxtKeyOf(domain: string): TxtKey {
      (Zones.Apex(domain, zones), Zones.RelativeName(domain, zones))
    }

    function Records(domain: string): set<string>
      reads this
    {
      var key := TxtKeyOf(domain);
      if key in txt then txt[key] else {}
    }

    /** fulfill_dns_01: a provider failure is reported, whether or not the record was written before it. */
    method FulfillDns01(domain: string, value: string, applied: bool, raises: bool) returns (ok: bool)
      requires !raises ==> applied
      modifies this`txt
      ensures ok <==> !raises
      ensures ok ==> value in Records(domain)
      ensures Records(domain) == if applied then old(Records(domain)) + {value} else old(Records(domain))
      ensures forall d | Zones.NoTrailingDot(d) && Zones.NoTrailingDot(domain) && d != domain ::
              Records(d) == old(Records(d))
    {
      var key := TxtKeyOf(domain);
      if applied {
        txt := txt[key := (if key in txt then txt[key] else {}) + {value}];
      }
      KeysApart(domain);
      return !raises;
    }

    /** clear_dns_01: deletes every TXT record at the name, and lets a failure pass. */
    method ClearDns01(domain: string, applied: bool)
      modifies this`txt
      ensures Records(domain) == if applied then {} else old(Records(domain))
      ensures forall d | Zones.NoTrailingDot(d) && Zones.NoTrailingDot(domain) && d != domain ::
              Records(d) == old(Records(d))
    {
      if applied {
        txt := txt[TxtKeyOf(domain) := {}];
      }
      KeysApart(domain);
    }

    lemma KeysApart(domain: string)
      ensures forall d | Zones.NoTrailingDot(d) && Zones.NoTrailingDot(domain) && d != domain ::
                TxtKeyOf(d) != TxtKeyOf(domain)
    {
      forall d | Zones.NoTrailingDot(d) && Zones.NoTrailingDot(domain) && d != domain
        ensures TxtKeyOf(d) != TxtKeyOf(domain)
      {
        if Zones.Apex(d, zones) == Zones.Apex(domain, zones) {
          Zones.RelativeNamesDistinct(d, domain, zones);
        }
      }
    }

    /** No two domains share a lock. */
    ghost predicate Registry()
      reads this
    {
      forall d, d' | d in domainLocks && d' in domainLocks && d != d' :: domainLocks[d] != domainLocks[d']
    }

    /** The same domain always gets the same lock, and a new domain a new one. */
    method DomainLock(domain: string) returns (lock: Lock)
      requires Registry()
      modifies this`domainLocks
      ensures Registry()
      ensures domain in domainLocks && domainLocks[domain] == lock
      ensures domain in old(domainLocks) ==> domainLocks == old(domainLocks)
      ensures domain !in old(domainLocks) ==> fresh(lock) && domainLocks == old(domainLocks)[domain := lock]
    {
      if domain in domainLocks {
        lock := domainLocks[domain];
      } else {
        lock := new Lock();
        domainLocks := domainLocks[domain := lock];
      }
    }

    /** new_order: remembers the order's URL under its finalize URL when the CA gives one. */
    method NewOrder(finalize: Url, location: Option<Url>, ghost ca: map<nat, CaOrder>)
      modifies this`orderUrls
      ensures orderUrls == if location.Some? then old(orderUrls)[finalize := location.value] else old(orderUrls)
      ensures forall c | c in ca && ca[c].finalize == finalize && location == Some(ca[c].location) ::
                UrlsNameOrders(ca) && UrlsBelong(old(orderUrls), ca) ==> UrlsBelong(orderUrls, ca)
    {
      if location.Some? {
        orderUrls := orderUrls[finalize := location.value];
      }
    }

    /** `answers` are what the polls of `uri` would report in turn; `chains` what each certificate URL serves. */
    method PollOrderForCert(uri: Url, answers: seq<Answer>, chains: Downloads)
      returns (r: Result<string, AcmeError>)
      requires |answers| >= POLL_ATTEMPTS
      ensures r == Polled(FirstEnd(answers, POLL_ATTEMPTS), chains)
    {
      for attempt := 0 to POLL_ATTEMPTS
        invariant FirstEnd(answers, attempt).None?
      {
        var status := answers[attempt];
        if status.NowValid? {
          FirstEndStays(answers, attempt + 1, POLL_ATTEMPTS);
          return Downloaded(chains(status.certificate));
        }
        if status.Raised? {
          FirstEndStays(answers, attempt + 1, POLL_ATTEMPTS);
          return Err(RequestFailed);
        }
        if status.NowInvalid? {
          FirstEndStays(answers, attempt + 1, POLL_ATTEMPTS);
          return Err(OrderInvalid);
        }
      }
      return Err(NotInTime);
    }

    /**
     The captured URL is taken out of the map whatever happens next. The chain comes from the URL in the reply, or
     from the captured one when the reply has none or the order was already finalized, or from the reply's body.
     */
    method FinalizeAndWait(finalize: Url, reply: FinalizeReply, answers: Url -> seq<Answer>, chains: Downloads,
                           ghost ca: map<nat, CaOrder>)
      returns (r: Result<string, AcmeError>)
      requires forall u :: |answers(u)| >= POLL_ATTEMPTS
      modifies this`orderUrls
      ensures orderUrls == old(orderUrls) - {finalize}
      ensures r == Outcome(Stored(old(orderUrls), finalize), reply, answers, chains)
      ensures UrlsBelong(old(orderUrls), ca) ==> UrlsBelong(orderUrls, ca)
      ensures forall c | c in ca && ca[c].finalize == finalize && About(ca[c], reply, answers, chains) ::
                UrlsBelong(old(orderUrls), ca) ==>
                  OwnChain(r, ca[c], Stored(old(orderUrls), finalize), reply, answers, chains)
    {
      forall c | c in ca && ca[c].finalize == finalize && About(ca[c], reply, answers, chains)
          && UrlsBelong(orderUrls, ca)
        ensures OwnChain(Outcome(Stored(orderUrls, finalize), reply, answers, chains), ca[c],
                         Stored(orderUrls, finalize), reply, answers, chains)
      {
        OutcomeIsOwn(ca[c], Stored(orderUrls, finalize), reply, answers, chains);
      }
      var stored := Stored(orderUrls, finalize);
      orderUrls := orderUrls - {finalize};
      if reply.Unread? {
        return Err(RequestFailed);
      }
      if reply.Rejected? {
        if reply.orderNotReady && stored.Some? {
          r := PollOrderForCert(stored.value, answers(stored.value), chains);
          return;
        }
        return Err(AcmeError(reply.orderNotReady));
      }
      var uri: Url;
      if reply.location.Some? {
        uri := reply.location.value;
      } else if stored.Some? {
        uri := stored.value;
      } else {
        if reply.bodyCertificate.Some? {
          return Downloaded(chains(reply.bodyCertificate.value));
        }
        return Err(NoOrderUrl);
      }
      r := PollOrderForCert(uri, answers(uri), chains);
    }
  }
}
