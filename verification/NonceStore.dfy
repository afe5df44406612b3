/** The nonce table as the relay updates it, and the checks that stand between a request and its nonce. */
module NonceStore {
  import opened Nonces

  /** What the checks of verify_jws find in a request, in the order in which they look. */
  datatype Request = Request(
    contentTypeOk: bool,
    bodyIsObject: bool,
    fieldsPresent: bool,
    protectedDecodes: bool,
    algAllowed: bool,
    urlMatches: bool,
    key: KeyOutcome,
    signatureDecodes: bool,
    signatureValid: bool,
    nonce: string,
    payloadDecodes: bool)

  /** How the signing key is found: embedded, by account URL, or not at all. */
  datatype KeyOutcome = Embedded | OfAccount(account: string) | BadKey | UnknownAccount | InactiveAccount

  /** A request that fails none of the checks before the nonce. */
  predicate Authentic(r: Request) {
    && r.contentTypeOk && r.bodyIsObject && r.fieldsPresent && r.protectedDecodes && r.algAllowed && r.urlMatches
    && (r.key.Embedded? || r.key.OfAccount?) && r.signatureDecodes && r.signatureValid
  }

  class Store {
    const config: Config
    const start: int
    var table: map<string, Row>
    var pending: nat
    var now: int
    ghost var history: seq<Event>

    ghost function View(): State
      reads this
    {
      State(table, pending, now)
    }

    /** A legal run of events led here, so all that holds after every run holds of this store. */
    ghost predicate Valid()
      reads this
    {
      Legal(config, start, history) && After(config, start, history) == View()
    }

    /** Every value the relay ever issued, whether or not its row is still there. */
    ghost function Issued(): set<string>
      reads this
    {
      Unpruned(config, start, history).table.Keys
    }

    constructor (config: Config, now: int)
      ensures Valid() && this.config == config && start == now && history == []
    {
      this.config, this.start, this.table, this.pending, this.now, this.history := config, now, map[], 0, now, [];
    }

    lemma Happens(e: Event)
      requires Valid() && (e.Insert? ==> pending > 0 && e.value !in Issued())
      ensures Legal(config, start, history + [e]) && After(config, start, history + [e]) == Apply(config, View(), e)
    {
      assert (history + [e])[..|history|] == history;
    }

    method Tick(elapsed: nat)
      requires Valid()
      modifies this`now, this`history
      ensures Valid() && history == old(history) + [Event.Tick(elapsed)] && now == old(now) + elapsed
    {
      Happens(Event.Tick(elapsed));
      now := now + elapsed;
      history := history + [Event.Tick(elapsed)];
    }

    /** First half of generate_nonce: the count against the cap. */
    method BeginGenerate() returns (allowed: bool)
      requires Valid()
      modifies this`pending, this`history
      ensures Valid() && history == old(history) + [CountRows]
      ensures allowed <==> config.cap <= 0 || |table| < config.cap
      ensures pending == if allowed then old(pending) + 1 else old(pending)
    {
      Happens(CountRows);
      history := history + [CountRows];
      if config.cap > 0 {
        var count := |table|;
        if count >= config.cap { return false; }
      }
      pending := pending + 1;
      return true;
    }

    /** Second half: the insert, an await later. */
    method FinishGenerate(value: string)
      requires Valid() && pending > 0 && value !in Issued()
      modifies this`table, this`pending, this`history
      ensures Valid() && history == old(history) + [Insert(value)]
      ensures table == old(table)[value := Row(false, now)] && pending == old(pending) - 1
      ensures value !in old(table) && Accepts(config, View(), value) == (config.ttl >= 0)
    {
      RunRefines(config, start, history);
      Happens(Insert(value));
      table := table[value := Row(false, now)];
      pending := pending - 1;
      history := history + [Insert(value)];
    }

    /** The single conditional UPDATE; one affected row means the nonce was good. */
    method ConsumeNonce(value: string) returns (ok: bool)
      requires Valid()
      modifies this`table, this`history
      ensures Valid() && history == old(history) + [Consume(value)]
      ensures ok <==> value in old(table) && !old(table)[value].used && now - old(table)[value].created <= config.ttl
      ensures table == if ok then old(table)[value := old(table)[value].(used := true)] else old(table)
      ensures !Accepts(config, View(), value)
    {
      Happens(Consume(value));
      history := history + [Consume(value)];
      var cutoff := now - config.ttl;
      ok := value in table && !table[value].used && table[value].created >= cutoff;
      if ok {
        table := table[value := table[value].(used := true)];
      }
    }

    method PruneNonces()
      requires Valid()
      modifies this`table, this`history
      ensures Valid() && history == old(history) + [Prune]
      ensures forall value :: value in table <==> value in old(table) && now - old(table)[value].created <= config.ttl
      ensures forall value | value in table :: table[value] == old(table)[value]
      ensures forall value :: Accepts(config, View(), value) <==> Accepts(config, old(View()), value)
    {
      Happens(Prune);
      var cutoff := now - config.ttl;
      table := map value | value in table && !(table[value].created < cutoff) :: table[value];
      history := history + [Prune];
    }

    /**
     A request that fails any check before the nonce leaves the table as it was, so it cannot burn a nonce; one
     that passes them consumes its nonce, even if its payload then turns out not to decode.
     */
    method VerifyJws(r: Request) returns (status: int, account: string)
      requires Valid()
      modifies this`table, this`history
      ensures Valid() && history == if Authentic(r) then old(history) + [Consume(r.nonce)] else old(history)
      ensures !Authentic(r) ==> table == old(table) && status != 200
      ensures Authentic(r) ==> View() == Apply(config, old(View()), Consume(r.nonce))
      ensures Authentic(r) <==>
                r.contentTypeOk && r.bodyIsObject && r.fieldsPresent && r.protectedDecodes && r.algAllowed
                && r.urlMatches && (r.key == Embedded || r.key.OfAccount?) && r.signatureDecodes && r.signatureValid
      ensures status == 200 <==> Authentic(r) && Accepts(config, old(View()), r.nonce) && r.payloadDecodes
      ensures status == 200 ==> account == if r.key.OfAccount? then r.key.account else ""
      ensures status == 401 <==> r.contentTypeOk && r.bodyIsObject && r.fieldsPresent && r.protectedDecodes
                                 && r.algAllowed && r.urlMatches && (r.key.UnknownAccount? || r.key.InactiveAccount?)
    {
      account := "";
      if !r.contentTypeOk { return 415, account; }
      if !r.bodyIsObject { return 400, account; }
      if !r.fieldsPresent { return 400, account; }
      if !r.protectedDecodes { return 400, account; }
      if !r.algAllowed { return 400, account; }
      if !r.urlMatches { return 400, account; }
      match r.key {
        case BadKey => return 400, account;
        case UnknownAccount => return 401, account;
        case InactiveAccount => return 401, account;
        case Embedded =>
        case OfAccount(id) => account := id;
      }
      if !r.signatureDecodes { return 500, account; }
      if !r.signatureValid { return 400, account; }
      var consumed := ConsumeNonce(r.nonce);
      if !consumed { return 400, account; }
      if !r.payloadDecodes { return 400, account; }
      return 200, account;
    }
  }
}
