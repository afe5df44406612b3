/**
 The order, authorization and certificate rows, the tasks that write them, and every atomic step.

 A step is one committed transaction, or one await between two of them. The state is a value so
 that runs can be quantified over; `Relay` is the object whose methods perform the same steps in place.
 */
module OrderModel {
  import opened Wrappers

  type Id = string

  datatype Status = Pending | Processing | Ready | Valid | Invalid

  datatype Order = Order(account: Id, status: Status, identifiers: seq<string>, certId: Option<Id>)
  datatype Authorization = Authorization(order: Id, status: Status, identifier: string, token: Option<string>)
  datatype Certificate = Certificate(order: Id, pem: string)

  datatype Database = Database(
    accounts: set<Id>,
    orders: map<Id, Order>,
    authzs: map<Id, Authorization>,
    certs: map<Id, Certificate>)

  /** A live coroutine, named by the await it is suspended at. */
  datatype Task =
    | Validator(authz: Id, order: Id)             // run_challenge, before its first session
    | Fetching(authz: Id, order: Id, left: nat)   // validate_http01, `left` attempts to go
    | Fetched(authz: Id, order: Id, ok: bool)     // before run_challenge's second session
    | Claim(order: Id)                            // finalize_order, guard passed, UPDATE pending
    | Finalizer(order: Id)                        // process_finalize, before its first session
    | Signing(order: Id)                          // waiting for the upstream CA
    | Storing(order: Id, cert: Id)                // store_cert committed, the order's commit pending

  datatype System = System(db: Database, tasks: map<nat, Task>, next: nat, retries: int)

  datatype Identifier = Identifier(kind: string, value: string)

  /** What the outside world answers to a suspended task. */
  datatype Answer =
    | Proceed
    | AttemptMatched
    | AttemptFailed
    | AttemptCrashed
    | SignFailed
    | Signed(cert: Id, pem: string)

  datatype Event =
    | NewAccount(account: Id)
    | NewOrder(caller: Id, identifiers: seq<Identifier>, admitted: bool, order: Id, authz: Id, token: string)
    | ImportOrder(caller: Id, order: Id, names: seq<string>, rows: map<Id, Authorization>)
    | Acknowledge(caller: Id, authz: Id)
    | Finalize(caller: Id, order: Id, csrDecodes: bool)
    | Resume(task: nat, answer: Answer)
    | Restart

  // ----- row updates

  function WithOrderStatus(db: Database, o: Id, status: Status): Database
    requires o in db.orders
  {
    db.(orders := db.orders[o := db.orders[o].(status := status)])
  }

  function WithAuthzStatus(db: Database, a: Id, status: Status): Database
    requires a in db.authzs
  {
    db.(authzs := db.authzs[a := db.authzs[a].(status := status)])
  }

  predicate OwnedAuthz(db: Database, a: Id, o: Id) {
    a in db.authzs && db.authzs[a].order == o
  }

  function AuthzsOf(db: Database, o: Id): set<Id> {
    set a | a in db.authzs && db.authzs[a].order == o
  }

  predicate AllValid(db: Database, o: Id) {
    forall a | a in db.authzs :: db.authzs[a].order == o ==> db.authzs[a].status == Valid
  }

  function Spawn(s: System, t: Task): System {
    s.(tasks := s.tasks[s.next := t], next := s.next + 1)
  }

  function Continue(s: System, i: nat, t: Task): System {
    s.(tasks := s.tasks[i := t])
  }

  function Finish(s: System, i: nat): System {
    s.(tasks := s.tasks - {i})
  }

  // ----- requests

  /** What Python's str.strip removes. */
  predicate IsSpace(c: char) {
    || '\t' <= c <= '\r' || '\U{001C}' <= c <= ' ' || c == '\U{0085}' || c == '\U{00A0}' || c == '\U{1680}'
    || '\U{2000}' <= c <= '\U{200A}' || c == '\U{2028}' || c == '\U{2029}' || c == '\U{202F}' || c == '\U{205F}'
    || c == '\U{3000}'
  }

  predicate Blank(value: string) {
    forall k | 0 <= k < |value| :: IsSpace(value[k])
  }

  /** A name is not blank; the empty text and any number of ASCII blanks are. */
  lemma Blanks(value: string)
    ensures Blank("")
    ensures (forall k | 0 <= k < |value| :: value[k] == ' ' || value[k] == '\t' || value[k] == '\n') ==> Blank(value)
    ensures (exists k | 0 <= k < |value| :: '!' <= value[k] <= '~') ==> !Blank(value)
  {
    if k :| 0 <= k < |value| && '!' <= value[k] <= '~' {
      assert !IsSpace(value[k]);
    }
  }

  predicate AcceptableIdentifiers(identifiers: seq<Identifier>) {
    |identifiers| == 1 && identifiers[0].kind == "dns" && !Blank(identifiers[0].value)
  }

  /** `admitted` is the verdict of the domain policy and of the order quota. */
  function NewOrderStep(s: System, e: Event): System
    requires e.NewOrder?
  {
    if !AcceptableIdentifiers(e.identifiers) || !e.admitted then s else
    var value := e.identifiers[0].value;
    s.(db := s.db.(
         orders := s.db.orders[e.order := Order(e.caller, Pending, [value], None)],
         authzs := s.db.authzs[e.authz := Authorization(e.order, Pending, value, Some(e.token))]))
  }

  /** Rows written by something other than new-order: any number of authorizations, with or without a token. */
  function ImportOrderStep(s: System, e: Event): System
    requires e.ImportOrder?
  {
    s.(db := s.db.(
         orders := s.db.orders[e.order := Order(e.caller, Pending, e.names, None)],
         authzs := s.db.authzs + map a | a in e.rows :: e.rows[a].(order := e.order, status := Pending)))
  }

  function AcknowledgeStep(s: System, caller: Id, a: Id): System {
    if a !in s.db.authzs then s else
    var o := s.db.authzs[a].order;
    if o !in s.db.orders || s.db.orders[o].account != caller then s else
    var status := s.db.authzs[a].status;
    if status != Pending && status != Processing then s else
    var db := if status == Pending then WithAuthzStatus(s.db, a, Processing) else s.db;
    var db' := if status == Pending && db.orders[o].status == Pending then WithOrderStatus(db, o, Processing) else db;
    Spawn(s.(db := db'), Validator(a, o))
  }

  predicate FinalizeAccepted(s: System, caller: Id, o: Id, csrDecodes: bool) {
    && o in s.db.orders
    && s.db.orders[o].account == caller
    && s.db.orders[o].status == Ready
    && csrDecodes
    && s.db.orders[o].identifiers != []
  }

  /** The plain-status guard of finalize_order: a fast path that only reads. */
  function FinalizeStep(s: System, caller: Id, o: Id, csrDecodes: bool): System {
    if FinalizeAccepted(s, caller, o, csrDecodes) then Spawn(s, Claim(o)) else s
  }

  // ----- resumed tasks

  /** The conditional UPDATE of finalize_order; the winner dispatches the background worker. */
  function ClaimStep(s: System, i: nat, o: Id): System {
    if o in s.db.orders && s.db.orders[o].status == Ready
    then Continue(s.(db := WithOrderStatus(s.db, o, Processing)), i, Finalizer(o))
    else Finish(s, i)
  }

  /** First session of run_challenge. */
  function OpenStep(s: System, i: nat, a: Id, o: Id): System {
    if a !in s.db.authzs || o !in s.db.orders then Finish(s, i)
    else if s.db.authzs[a].token.None? || s.db.orders[o].account !in s.db.accounts then
      Finish(s.(db := WithOrderStatus(WithAuthzStatus(s.db, a, Invalid), o, Invalid)), i)
    else Continue(s, i, Fetching(a, o, if s.retries > 0 then s.retries else 0))
  }

  /** One turn of the retry loop of validate_http01. */
  function FetchStep(s: System, i: nat, a: Id, o: Id, left: nat, answer: Answer): System {
    if left == 0 || answer == AttemptMatched then Continue(s, i, Fetched(a, o, true))
    else if answer == AttemptFailed && left > 1 then Continue(s, i, Fetching(a, o, left - 1))
    else Continue(s, i, Fetched(a, o, false))
  }

  /** Second session of run_challenge. */
  function CloseStep(s: System, i: nat, a: Id, o: Id, ok: bool): System {
    if a !in s.db.authzs || o !in s.db.orders then Finish(s, i)
    else if ok then
      var db := WithAuthzStatus(s.db, a, Valid);
      Finish(s.(db := if AllValid(db, o) then WithOrderStatus(db, o, Ready) else db), i)
    else
      Finish(s.(db := WithOrderStatus(WithAuthzStatus(s.db, a, Invalid), o, Invalid)), i)
  }

  function StartStep(s: System, i: nat, o: Id): System {
    if o in s.db.orders then Continue(s, i, Signing(o)) else Finish(s, i)
  }

  /** The CA's answer: a failure invalidates the order, a chain is stored by store_cert's own commit. */
  function SignStep(s: System, i: nat, o: Id, answer: Answer): System {
    if o !in s.db.orders then Finish(s, i)
    else if answer.Signed? then
      Continue(s.(db := s.db.(certs := s.db.certs[answer.cert := Certificate(o, answer.pem)])), i,
          Storing(o, answer.cert))
    else Finish(s.(db := WithOrderStatus(s.db, o, Invalid)), i)
  }

  function CommitStep(s: System, i: nat, o: Id, c: Id): System
    requires o in s.db.orders
  {
    Finish(s.(db := s.db.(orders := s.db.orders[o := s.db.orders[o].(certId := Some(c), status := Valid)])), i)
  }

  function ResumeStep(s: System, i: nat, answer: Answer): System
    requires CanResume(s, i, answer)
  {
    match s.tasks[i]
    case Validator(a, o) => OpenStep(s, i, a, o)
    case Fetching(a, o, left) => FetchStep(s, i, a, o, left, answer)
    case Fetched(a, o, ok) => CloseStep(s, i, a, o, ok)
    case Claim(o) => ClaimStep(s, i, o)
    case Finalizer(o) => StartStep(s, i, o)
    case Signing(o) => SignStep(s, i, o, answer)
    case Storing(o, c) => CommitStep(s, i, o, c)
  }

  /** Which answers each await can get; a stored certificate's identifier is a fresh UUID. */
  predicate CanResume(s: System, i: nat, answer: Answer) {
    && i in s.tasks
    && match s.tasks[i]
       case Fetching(_, _, left) =>
         if left == 0 then answer == Proceed
         else answer == AttemptMatched || answer == AttemptFailed || answer == AttemptCrashed
       case Signing(_) => answer == SignFailed || (answer.Signed? && answer.cert !in s.db.certs)
       case Storing(o, _) => answer == Proceed && o in s.db.orders
       case _ => answer == Proceed
  }

  /** The process dies, taking every task with it, and the next start resets what was in flight. */
  function RestartStep(s: System): System {
    s.(db := s.db.(orders := ResetOrders(s.db.orders), authzs := ResetAuthzs(s.db.authzs)), tasks := map[])
  }

  function ResetOrders(orders: map<Id, Order>): map<Id, Order> {
    map o | o in orders :: if orders[o].status == Processing then orders[o].(status := Invalid) else orders[o]
  }

  function ResetAuthzs(authzs: map<Id, Authorization>): map<Id, Authorization> {
    map a | a in authzs :: if authzs[a].status == Processing then authzs[a].(status := Invalid) else authzs[a]
  }

  // ----- runs

  predicate UnusedAccount(db: Database, account: Id) {
    account !in db.accounts && forall o | o in db.orders :: db.orders[o].account != account
  }

  /** Row identifiers are fresh UUIDs; everything else about a request is up to its sender. */
  predicate Enabled(s: System, e: Event) {
    match e
    case NewAccount(account) => UnusedAccount(s.db, account)
    case NewOrder(_, _, _, o, a, _) => o !in s.db.orders && a !in s.db.authzs
    case ImportOrder(_, o, _, rows) => o !in s.db.orders && rows.Keys !! s.db.authzs.Keys
    case Resume(i, answer) => CanResume(s, i, answer)
    case _ => true
  }

  function Apply(s: System, e: Event): System
    requires Enabled(s, e)
  {
    match e
    case NewAccount(account) => s.(db := s.db.(accounts := s.db.accounts + {account}))
    case NewOrder(_, _, _, _, _, _) => NewOrderStep(s, e)
    case ImportOrder(_, _, _, _) => ImportOrderStep(s, e)
    case Acknowledge(caller, a) => AcknowledgeStep(s, caller, a)
    case Finalize(caller, o, csrDecodes) => FinalizeStep(s, caller, o, csrDecodes)
    case Resume(i, answer) => ResumeStep(s, i, answer)
    case Restart => RestartStep(s)
  }

  function Initial(retries: int): System {
    System(Database({}, map[], map[], map[]), map[], 0, retries)
  }

  ghost predicate Legal(retries: int, run: seq<Event>)
    decreases |run|, 0
  {
    run == [] || (Legal(retries, Before(run)) && Enabled(After(retries, Before(run)), Last(run)))
  }

  ghost function After(retries: int, run: seq<Event>): (s: System)
    requires Legal(retries, run)
    decreases |run|, 1
  {
    if run == [] then Initial(retries) else Apply(After(retries, Before(run)), Last(run))
  }

  function Before(run: seq<Event>): (prefix: seq<Event>)
    requires run != []
    ensures |prefix| == |run| - 1
  {
    run[..|run| - 1]
  }

  function Last(run: seq<Event>): Event
    requires run != []
  {
    run[|run| - 1]
  }
}
