# Jackdaw: a verified model of its protocols

Jackdaw is a two-leg ACME bridge: internal clients prove control of a name to the relay by HTTP-01, and the relay
obtains the certificate from a public CA by DNS-01. What is hard about it is not any single function but several
small concurrent protocols over shared mutable state - database rows, a shared ACME client, DNS zones, files on
disk - and a few exact encodings that decide whether two requests mean the same thing. This project models those
protocols as state machines over their atomic steps, the objects that are updated in place as classes whose methods
perform exactly those steps, and the encodings as functions; and it proves what holds of every run or every input.

An atomic step is one committed transaction, one file operation or one answer of a remote party; between two steps
of one coroutine any step of any other can happen. A process restart is a step like any other.

## How the modules fit together

| modules | what they model |
|---|---|
| `OrderModel`, `Relay` | orders, authorizations, certificates and live tasks; every request, background step and restart, as steps on values and as methods on the rows |
| `OrderRequests` | what requests and restarts do to the rows, and that their owners asked for what the tasks do |
| `OrderInvariants`, `OrderIssuance`, `OrderPhases`, `OrderFinality`, `OrderDuplicates`, `OrderFuture`, `OrderTightness`, `OrderProgress`, `OrderProof` | what holds over all runs: soundness of the rows, an exact bound on issuance, finality and exactly when it fails, what can still become of an order, progress, no issuance without proof |
| `Http01` | the retry loop of HTTP-01 validation |
| `IssuanceModel`, `IssuanceProofs`, `IssuanceReturns`, `AcmeClient` | issuance flows on the one shared ACME client, against a CA that answers as it likes |
| `NamecheapRuns`, `HostParams`, `NamecheapProvider` | whole-list read-modify-write cycles on DNS host lists, and the numbered parameters they are sent in |
| `Nonces`, `NonceStore`, `OrderQuota` | the replay table and the sliding-window quota, with their checks and commits as separate steps |
| `Revocation` | indexed lookup by serial with a scan for older rows |
| `Backoff`, `RelayCertFiles` | the relay's own certificate: how often issuance is attempted, and what is on disk after a crash |
| `JsonText`, `CanonicalJwk`, `Base64Url`, `Numerals`, `Zones` | exact text: JSON strings and the stored key, unpadded base64url, decimal and hexadecimal numerals, DNS zones |
| `Wrappers`, `Sizes` | optional values and errors; cardinalities of finite sets |

Every row-changing method of `Relay.Relay` adds its event to a ghost `history` and keeps `Valid()`: the history is a
legal run of `OrderModel` that leads to exactly the present rows and tasks. Whatever is proved of all runs therefore
holds of a relay object after any sequence of calls. (The one event no method performs is the import of rows with
other authorizations than new-order writes; runs may contain it, histories do not.) `NonceStore.Store` is tied to
`Nonces` by a history in the same way. `RelayCertFiles.SslDir` is tied to the file events, `Http01.ValidateHttp01` to
the fetch steps, `AcmeClient.Client` to the machine of `IssuanceModel` by
`IssuanceReturns.RunsAsOutcome`, and `NamecheapProvider.Provider`
to the pure operations that `NamecheapRuns` serialises.

## Where the code and its documentation differ

The model follows the code. These are the places where a statement in the repository is not what the code gives.

- `src/jackdaw/routes/challenge.py:34` and `:46-47` say that the move to `processing` prevents duplicate runs. Every
  further POST while the authorization is `processing` starts another validator, and what a late validator or a late
  issuance commits overwrites the status the order has by then. `OrderDuplicates.LeavesFinal` says what every step
  makes of an order that is `valid` or `invalid`: `valid` is left exactly by a late success that completes the
  authorizations (the order is ready again) or by a late failure (it is invalid), `invalid` exactly by such a success
  or by a late certificate. `OrderFuture.ValidLastsExactly` and `InvalidLastsExactly` say in which states of an order
  with one authorization the status is final, and `OrderFuture.IssuedLaterExactly` in which it can be issued once
  more. Every order with one authorization, an account, a name and a token that nobody has acknowledged yet has
  continuations in which it is issued twice (`OrderDuplicates.IssuedTwice`), becomes invalid after it was issued
  (`ValidIsLost`) and becomes valid after it failed (`InvalidIsLost`), and `OrderTightness` shows that any number of
  validators can buy as many issuances. `IssuedAtMostOnce` and `FinalIsFinal` hold when each authorization gets one
  validator.
- `README.md:208` says HTTP-01 proof is always enforced. With `CHALLENGE_RETRIES` at 0 the loop body never runs and
  validation passes; `OrderProof.NoIssuanceWithoutProof` is an equivalence with `retries > 0`.
- `src/jackdaw/serve.py:45-47` says the backoff stays safely under five failures an hour. Every hour holds fewer than
  five attempts exactly when the first few attempts are slow enough (`Backoff.UnderFivePerHour`, with the seconds
  they need); seven that fail at once begin in the first hour (`Backoff.SevenInTheFirstHour`), and only after the
  fourth attempt is the bound four whatever they take (`Backoff.AttemptsPerHour`).
- The stored text does not always identify the key. `src/jackdaw/_util.py:30-36` promises only that field order does
  not matter, which holds of every key; that a stored key is read back as it was, on which
  `src/jackdaw/services/jws.py:92` relies, holds exactly of keys without a split surrogate pair
  (`CanonicalJwk.RoundTrip`), and `CanonicalJwk.SameTextExactly` says exactly which keys are stored alike. A split
  pair arrives as raw surrogate bytes in the protected header, which `json.loads` of bytes
  (`src/jackdaw/services/jws.py:161`) lets through without joining them.
- Orders also move from `pending` to `processing` before they are `ready`, unlike the state diagram of section 7.1.6
  of RFC 8555; the phases proved in `OrderFinality` are the code's.

## Model

| member | source | states |
|---|---|---|
| Relay.Relay.NewAccount | src/jackdaw/routes/account.py:75-85 | an account row appears under an identifier no row has, and nothing else changes |
| Relay.Relay.ValidateIdentifiers | src/jackdaw/routes/order.py:53-97 | accepts exactly one DNS identifier whose value is not blank |
| OrderModel.Blanks | src/jackdaw/routes/order.py:90-91 | a value with a visible ASCII character is not blank, one of ASCII blanks only is |
| Relay.Relay.NewOrder | src/jackdaw/routes/order.py:164-210 | creates a pending order with exactly one authorization of its own if the request is acceptable and admitted, else changes nothing |
| Relay.Relay.FinalizeOrder | src/jackdaw/routes/order.py:261-286 | the guard grants a claim exactly to the account that owns the order, when it is ready, has an identifier and the CSR decodes, and writes no row |
| Relay.Relay.ClaimOrder | src/jackdaw/routes/order.py:300-331 | the conditional UPDATE: the claim succeeds only on `ready`, moves it to `processing` and dispatches the finalizer; a lost claim changes no row |
| Relay.Relay.AcknowledgeChallenge | src/jackdaw/routes/challenge.py:29-64 | the accepted statuses, both row transitions, one validator per accepted request, and no change at all on a refusal |
| Relay.Relay.BeginChallenge | src/jackdaw/worker.py:67-109 | first session: a missing token or account invalidates both rows, otherwise the fetch begins; no "row not found" branch is reachable |
| Relay.Relay.FetchAttempt | src/jackdaw/services/http01.py:175-196 | one turn of the retry loop: success, another attempt, or failure, and no row is touched |
| Relay.Relay.EndChallenge | src/jackdaw/worker.py:130-165 | second session: success validates the authorization and readies the order once all its authorizations are valid, failure invalidates both |
| Relay.Relay.BeginFinalize | src/jackdaw/worker.py:190-196 | the finalizer finds its order and goes on to the CA without writing |
| Relay.Relay.FailFinalize | src/jackdaw/worker.py:198-219 | a failed issuance makes the order invalid and ends the task |
| Relay.Relay.StoreCert | src/jackdaw/services/cert_store.py:38-67 | the certificate is committed before anything refers to it |
| Relay.Relay.CompleteFinalize | src/jackdaw/worker.py:231-234 | the order becomes valid naming a stored certificate of its own |
| Relay.Relay.ResetProcessingOrders | src/jackdaw/main.py:36-50 | after a restart no task lives, every processing order and authorization is invalid and otherwise as it was, and all other rows are exactly as they were |
| OrderRequests.FinalizeEffect | src/jackdaw/routes/order.py:270-286 | on the rows: a finalize request has an effect if and only if its sender's account is the order's, and so on, and the effect is one claim |
| OrderRequests.AcknowledgeEffect | src/jackdaw/routes/challenge.py:41-64 | on the rows: who may acknowledge, which statuses move, and the one validator that starts |
| OrderRequests.RestartEffect | src/jackdaw/main.py:36-50 | on the rows: exactly the processing ones change, only in their status; accounts and certificates stay |
| OrderRequests.OwnerFixed | src/jackdaw/routes/order.py:187-197 | an order never changes hands |
| OrderRequests.DispatchWasAsked | src/jackdaw/routes/order.py:270 | over every run, a dispatched issuance was asked for by a finalize request of the account that owns the order |
| OrderRequests.ValidatorWasAsked | src/jackdaw/routes/challenge.py:41 | over every run, a live validator was asked for by an acknowledgement of that authorization by the account that owns its order |
| OrderInvariants.StepSound | src/jackdaw/worker.py:55-234 | every step of the whole protocol keeps: references resolve, ready means authorized, valid means issued, a certificate between its two commits belongs to one task |
| OrderInvariants.ReadyAndValidOrders | src/jackdaw/worker.py:138-163 | after every run, with any number of duplicate validators and restarts, a ready order has all authorizations valid and a valid order names its own stored certificate |
| OrderInvariants.CrashBetweenCommits | src/jackdaw/worker.py:231-234 | a crash between the two commits leaves a certificate that stays stored and that no order ever refers to, whatever follows |
| OrderInvariants.OrphanForever | src/jackdaw/services/cert_store.py:55-67 | a certificate nothing refers to and no task holds stays so over every continuation |
| OrderIssuance.IssuanceBound | src/jackdaw/routes/order.py:288-331 | over every run: issuances <= entries into ready <= successful validations <= validators started, and each issuance after the first needs a validator beyond one per authorization |
| OrderTightness.BoundIsReached | src/jackdaw/routes/challenge.py:43-64 | the bound is exact: for every n > 0 some run starts n validators for an order with one authorization and dispatches n issuances of it |
| OrderIssuance.IssuedAtMostOnce | src/jackdaw/routes/order.py:288-299 | with at most one validator per authorization, and any number of authorizations and finalize requests, an order is issued at most once |
| OrderIssuance.DispatchNeedsReady | src/jackdaw/routes/order.py:300-331 | an issuance is dispatched only by winning the claim of an order that is ready at that moment |
| OrderDuplicates.LateSuccessReissues | src/jackdaw/routes/challenge.py:43-64 | the converse: whatever the order's status, each late success buys one more issuance |
| OrderDuplicates.LeavesFinal | src/jackdaw/worker.py:79-234 | what each step makes of an order that is valid or invalid, with any number of authorizations and tasks: valid is left if and only if a late success completes the authorizations or a proof or issuance fails late, invalid if and only if such a success or a late certificate is committed |
| OrderDuplicates.ValidIsLost | src/jackdaw/worker.py:198-219 | every order not yet acknowledged, as above, has a continuation in which it is valid and then invalid, whatever number of attempts is configured |
| OrderDuplicates.InvalidIsLost | src/jackdaw/worker.py:225-234 | and one in which it is invalid and then valid |
| OrderFuture.ValidLastsExactly | src/jackdaw/worker.py:79-219 | a valid order with one authorization is valid in every continuation if and only if it has no live validator, its authorization can start none, and no issuance waits for the CA |
| OrderFuture.InvalidLastsExactly | src/jackdaw/worker.py:113-234 | an invalid one is invalid in every continuation if and only if no validator, live or still to be started, can succeed and no issuance is under way or stored |
| OrderFuture.IssuedLaterExactly | src/jackdaw/routes/order.py:288-331 | an order with one authorization has a continuation that issues it once more if and only if it has a name and is ready or a validator, live or still to be started, can succeed |
| OrderFuture.EntersReady | src/jackdaw/worker.py:138-156 | an order becomes ready only by a success that leaves none of its authorizations unproved |
| OrderDuplicates.IssuedTwice | src/jackdaw/routes/challenge.py:43-64 | every order not yet acknowledged that has one authorization, an account, a name and a token has a continuation in which it becomes valid and is then issued again, whatever number of attempts is configured |
| OrderFinality.StepPhase | src/jackdaw/worker.py:55-234 | with one validator, which tasks can be live in which pair of order and authorization status, kept by every step |
| OrderFinality.FinalIsFinal | src/jackdaw/worker.py:138-163 | for orders with one authorization and one validator, valid and invalid are absorbing and the certificate is never replaced |
| OrderPhases.Born | src/jackdaw/routes/order.py:187-210 | an order's rows appear in one step, all pending, with no task of theirs |
| OrderPhases.RunAttended | src/jackdaw/routes/challenge.py:48-64 | with any number of authorizations and validators, a processing authorization has a live validator of its own, in every reachable state |
| OrderPhases.RunBusy | src/jackdaw/routes/challenge.py:48-64 | a processing order with one authorization has a live validator or finalizer, in every reachable state |
| OrderProgress.NoStuckWork | src/jackdaw/main.py:36-50 | both together: nothing is ever processing that nobody is working on |
| OrderProgress.BoundedWork | src/jackdaw/services/http01.py:175-196 | without new requests every schedule is at most as long as what the live tasks have left to do |
| OrderProgress.AlwaysResumable | src/jackdaw/worker.py:113-219 | no task ever waits for another: each live task can be resumed by some answer |
| OrderProgress.Settles | src/jackdaw/worker.py:113-234 | every schedule of the live tasks, whatever they are answered, is within that bound, and it can go no further exactly when no task is left and nothing is processing |
| OrderProgress.CanSettle | src/jackdaw/worker.py:113-234 | from every reachable state some schedule gets there |
| OrderProof.NoIssuanceWithoutProof | src/jackdaw/services/http01.py:175-196 | when an issuance is dispatched, every authorization of the order was matched by some fetch, if and only if at least one attempt is configured |
| Http01.ValidateHttp01 | src/jackdaw/services/http01.py:175-196 | passes exactly when no attempt is configured or some attempt matches after only retryable failures; makes at most the configured number, and stops early only on a match or on an error that is not retried |
| Http01.RunFetchIsVerdict | src/jackdaw/services/http01.py:175-196 | the single fetch steps of the order model compute the verdict of the loop, with no attempt configured too |
| IssuanceProofs.OneFlowPerDomain | src/jackdaw/services/le_client.py:413-414 | at most one flow a domain is between its new-order and its certificate, over every run |
| IssuanceProofs.OtherDomainsNeverBlock | src/jackdaw/services/le_client.py:145-151 | a waiting flow can take its lock exactly when no flow of its own domain is in its section |
| IssuanceProofs.TxtStays | src/jackdaw/services/le_client.py:270-308 | a TXT value stays present from a flow's successful set to its own clear, although clear deletes every TXT record at the name |
| IssuanceProofs.ReturnsOwnCertificate | src/jackdaw/services/le_client.py:197-268 | by whichever path the chain came, it is the certificate of the CA order the flow itself opened, and that order is for the flow's domain |
| IssuanceProofs.MapHoldsUnfinalized | src/jackdaw/services/le_client.py:187-188 | the map holds exactly the Location-bearing orders whose finalize never began, each under its own URL |
| IssuanceProofs.PollsBounded | src/jackdaw/services/le_client.py:248-268 | no flow polls its order more than 60 times |
| IssuanceProofs.StepNamed | src/jackdaw/services/le_client.py:216-246 | every step keeps: each URL a flow or the map holds names one CA order, the flow's own |
| IssuanceReturns.RunsAsOutcome | src/jackdaw/services/le_client.py:197-268 | from the finalize on, the flow of the machine ends done with exactly the chain that the client returns on the same answers, and failed when it raises |
| IssuanceReturns.ReturnsUnlessFailed | src/jackdaw/services/le_client.py:387-415 | in every reachable state a flow can still return a certificate if and only if it has not failed |
| IssuanceReturns.TxtEffect | src/jackdaw/services/le_client.py:270-308 | a set adds its value at its own name, a clear empties it, and no step changes any other name |
| AcmeClient.OutcomeIsOwn | src/jackdaw/services/le_client.py:197-268 | what finalize_and_wait returns is the order's chain, and it returns one exactly when the download succeeds and the order is valid in time with its URL known, or the reply carries the certificate |
| AcmeClient.RecoversFinalized | src/jackdaw/services/le_client.py:218-246 | a finalize refused as not ready gives the certificate of the captured order, as a reply without or with a Location does; another refusal is raised |
| AcmeClient.Client.FinalizeAndWait | src/jackdaw/services/le_client.py:197-246 | the captured URL leaves the map on every path; while the map's URLs belong to their orders they go on doing so, and a chain returned is the order's own |
| AcmeClient.Client.PollOrderForCert | src/jackdaw/services/le_client.py:248-268 | the first poll that ends the waiting decides, within the bound, be it by a request that raises |
| AcmeClient.FirstEndIs | src/jackdaw/services/le_client.py:248-268 | the deciding poll is the first one that is not pending |
| AcmeClient.Client.NewOrder | src/jackdaw/services/le_client.py:175-195 | captures the order's URL if the CA gives one, and nothing else; every URL in the map goes on belonging to the order it is kept under |
| AcmeClient.Client.DomainLock | src/jackdaw/services/le_client.py:145-151 | the same domain always gets the same lock, different domains different ones |
| AcmeClient.Client.FulfillDns01 | src/jackdaw/services/le_client.py:270-294 | success means the value is served; no other domain's records change |
| AcmeClient.Client.ClearDns01 | src/jackdaw/services/le_client.py:296-308 | the name's TXT records go, or stay on a failure that is let pass; no other domain's records change |
| NamecheapRuns.Serialisable | src/jackdaw/dns/providers/namecheap.py:48-55 | under every interleaving and failure the remote list is the fold of the completed operations in lock order |
| NamecheapRuns.CycleHasItsEffect | src/jackdaw/dns/providers/namecheap.py:112-146 | a flow that finds its lock free can do its whole cycle: its record is appended or its TXT records are gone, other apexes are untouched and the lock is free again |
| NamecheapRuns.DeleteDeletes | src/jackdaw/dns/providers/namecheap.py:143 | a delete leaves no TXT record of the name, and every other record exactly as often as it was there |
| NamecheapRuns.DeleteKeepsOrder | src/jackdaw/dns/providers/namecheap.py:143 | and in the order in which it was there |
| NamecheapRuns.OthersKept | src/jackdaw/dns/providers/namecheap.py:112-146 | records no delete is aimed at keep their values and order, in front of what is appended, even when an equal record is appended |
| NamecheapRuns.RemoteKeepsOthers | src/jackdaw/dns/providers/namecheap.py:112-146 | so does the remote list, over every run |
| NamecheapRuns.OthersNeverBlock | src/jackdaw/dns/providers/namecheap.py:54-55 | a waiting flow can take its apex's lock exactly when no flow of that apex is in its section |
| NamecheapRuns.RunExclusive | src/jackdaw/dns/providers/namecheap.py:123-124 | at most one cycle per apex at a time, and what it is about to write was computed from the current list |
| NamecheapProvider.Provider.SplitDomain | src/jackdaw/dns/providers/namecheap.py:68-71 | splits at the first dot, and fails exactly when there is none |
| NamecheapProvider.Provider.SetHosts | src/jackdaw/dns/providers/namecheap.py:98-110 | what the far side holds after reading the numbered parameters back is exactly the list sent |
| NamecheapProvider.Provider.Without | src/jackdaw/dns/providers/namecheap.py:143 | the comprehension computes the pure delete |
| NamecheapProvider.Provider.SetTxt | src/jackdaw/dns/providers/namecheap.py:112-129 | appends one TXT record under the relative name, leaves the list alone when it cannot be read |
| NamecheapProvider.Provider.DeleteTxt | src/jackdaw/dns/providers/namecheap.py:131-146 | when it succeeds no TXT record at the relative name is left; whatever happens every other record is there as often as before; writes nothing when there is none |
| HostParams.KeyInjective | src/jackdaw/dns/providers/namecheap.py:102-107 | no two numbered keys collide, whatever field and number |
| HostParams.SentFields | src/jackdaw/dns/providers/namecheap.py:102-107 | under which names each host's five values are sent |
| HostParams.SentBase | src/jackdaw/dns/providers/namecheap.py:57-66 | under which names the command's own seven values are sent, whatever hosts follow |
| Numerals.DecimalReads | src/jackdaw/dns/providers/namecheap.py:102-107 | a suffix is the number's decimal digits, without leading zeros |
| HostParams.ReadsBack | src/jackdaw/dns/providers/namecheap.py:57-66 | every host list of every length is read back as sent, and all 5n + 7 keys are distinct |
| Nonces.SingleUse | src/jackdaw/services/nonce.py:58-69 | a nonce accepted now was never accepted before and was issued by the relay within its time to live |
| Nonces.AcceptedIsUsed | src/jackdaw/services/nonce.py:58-69 | over every run the accepted requests carry pairwise different nonces |
| Nonces.AcceptsExactly | src/jackdaw/services/nonce.py:58-69 | over every run a nonce is accepted if and only if it was issued, no longer ago than its time to live, and not accepted since |
| Nonces.PruningInvisible | src/jackdaw/services/nonce.py:72-79 | pruning never changes whether any nonce is accepted, against a table that is never pruned |
| Nonces.CapHolds | src/jackdaw/services/nonce.py:32-41 | with at most k generators between count and insert the table has at most cap + k - 1 rows |
| Nonces.CapIsReached | src/jackdaw/services/nonce.py:32-41 | for every cap and k some run reaches that number |
| NonceStore.Store.Tick | src/jackdaw/services/nonce.py:58-59 | time passes and nothing else changes |
| NonceStore.Store.BeginGenerate | src/jackdaw/services/nonce.py:32-37 | issues only below the cap, and has no cap when it is not positive |
| NonceStore.Store.FinishGenerate | src/jackdaw/services/nonce.py:38-41 | adds exactly the new row |
| NonceStore.Store.ConsumeNonce | src/jackdaw/services/nonce.py:44-69 | succeeds exactly for a known, unused, unexpired nonce; none is acceptable afterwards |
| NonceStore.Store.PruneNonces | src/jackdaw/services/nonce.py:72-79 | deletes expired rows and changes no verdict |
| NonceStore.Store.VerifyJws | src/jackdaw/services/jws.py:119-182 | a request that fails an earlier check leaves the table unchanged; one that passes consumes its nonce even if its payload does not decode |
| OrderQuota.QuotaHolds | src/jackdaw/routes/order.py:110-129 | with at most k requests between check and commit, every window holds at most limit + k - 1 of the account's orders; at most the limit when sequential |
| OrderQuota.QuotaIsReached | src/jackdaw/routes/order.py:184-210 | for every limit, window and k some run fills a window to that number |
| OrderQuota.AdmitsExactly | src/jackdaw/routes/order.py:110-129 | a request is admitted if and only if fewer than the limit of the account's orders are no older than the window |
| OrderQuota.CheckOrderRateLimit | src/jackdaw/routes/order.py:100-129 | admits exactly while the account's orders since the window's start are fewer than a positive limit |
| Revocation.FindCertificate | src/jackdaw/routes/revoke.py:83-105 | finds a row exactly when a scan parsing every chain of the account would, and the row has that serial |
| Revocation.TwoStageIsFullScan | src/jackdaw/routes/revoke.py:81-105 | on a database of any history, index and scan together select exactly the rows a full scan would |
| Revocation.RunFaithful | src/jackdaw/services/cert_store.py:55-67 | over every run a stored serial is missing or the hexadecimal of the row's own leaf |
| Revocation.CertTable.StoreCert | src/jackdaw/services/cert_store.py:28-67 | keeps that invariant and appends exactly one row |
| Numerals.HexInjective | src/jackdaw/services/cert_store.py:18-25 | different serials have different texts, negative ones included |
| Numerals.HexadecimalReads | src/jackdaw/services/cert_store.py:18-25 | a serial's text is its lower-case hexadecimal digits, without leading zeros |
| CanonicalJwk.OrderIrrelevant | src/jackdaw/_util.py:30-36 | keys with the same members have the same stored text, whatever the field order |
| CanonicalJwk.StoredInOrder | src/jackdaw/_util.py:36 | all members and no others are stored, in ascending code point order of their names |
| CanonicalJwk.Compact | src/jackdaw/_util.py:36 | quotes, colons and commas, and nothing between them |
| CanonicalJwk.Braces | src/jackdaw/_util.py:36 | and braces around the whole |
| CanonicalJwk.LastWins | src/jackdaw/services/jws.py:92 | of members with one name the last read remains |
| JsonText.PlainText | src/jackdaw/_util.py:36 | printable ASCII other than quote and backslash is written as it is |
| JsonText.ShortEscapes | src/jackdaw/_util.py:36 | the seven two-character escapes |
| JsonText.LongEscape | src/jackdaw/_util.py:36 | everything else up to 0xFFFF is written as its four lower-case hexadecimal digits |
| JsonText.PairEscape | src/jackdaw/_util.py:36 | everything beyond as its surrogate pair |
| CanonicalJwk.RoundTrip | src/jackdaw/services/jws.py:92 | loading the stored text gives back the same members if and only if none holds a split surrogate pair |
| CanonicalJwk.SameTextExactly | src/jackdaw/_util.py:36 | two keys have the same stored text if and only if joining their split pairs leaves the same sorted members |
| CanonicalJwk.TextIdentifiesMembers | src/jackdaw/_util.py:36 | among keys without split pairs the stored texts are equal exactly when the members are |
| CanonicalJwk.ParsesCanonical | src/jackdaw/services/http01.py:138 | every stored text can be loaded, and gives the members with split pairs joined |
| JsonText.JoinedEscapes | src/jackdaw/_util.py:36 | a split pair is written like the code point it encodes |
| CanonicalJwk.SplitPairCollides | src/jackdaw/_util.py:36 | two different keys with one stored text |
| JsonText.ReadsQuoted | src/jackdaw/_util.py:36 | reading a written string literal gives the text with split pairs joined and stops right behind it, whatever follows |
| Base64Url.RoundTrip | src/jackdaw/_util.py:22-27 | every byte string is recovered from its encoding, padded or stripped; the stripped length is never 1 modulo 4 |
| Base64Url.WritesUrlSafe | src/jackdaw/services/http01.py:142 | only letters, digits, `-` and `_` are written, and exactly as many as the bytes need |
| Base64Url.WritesBits | src/jackdaw/services/http01.py:142 | three bytes become the four symbols of their 24 bits, most significant first |
| Base64Url.SymbolTable | src/jackdaw/services/le_client.py:88 | which symbol each value has |
| Base64Url.ScanSkips | src/jackdaw/_util.py:27 | the decoder skips what is neither a symbol nor padding |
| Base64Url.RefusesNonAscii | src/jackdaw/_util.py:27 | text outside ASCII is refused as such, and nothing else is |
| Base64Url.EncodeInjective | src/jackdaw/services/http01.py:142 | different byte strings have different unpadded encodings |
| Base64Url.DecodeAccepts | src/jackdaw/_util.py:22-27 | on text over the alphabet decoding fails exactly for lengths that are 1 modulo 4 |
| Zones.ApexChoice | src/jackdaw/services/le_client.py:63-79 | the apex is the domain or a label-boundary suffix: the longest matching override, else the last two labels |
| Zones.ApexHasOneDot | src/jackdaw/services/le_client.py:79 | without a matching override the apex is two labels without dots, or the name itself if it has no dot |
| Zones.ChallengeLabel | src/jackdaw/services/le_client.py:281 | relative name and apex together are `_acme-challenge.` and the domain |
| Zones.OverrideOrderIrrelevant | src/jackdaw/services/le_client.py:75-78 | the order and repetition of overrides never matter |
| Zones.ApexIdempotent | src/jackdaw/services/le_client.py:63-79 | the apex of an apex is itself, for every domain and every override list |
| Zones.NameRejoins | src/jackdaw/services/le_client.py:280-281 | stripping the apex from the challenge name and rejoining gives the name back |
| Zones.RelativeNamesDistinct | src/jackdaw/dns/providers/namecheap.py:122 | two domains in one zone never share a record name |
| Backoff.EnsureRelayCert | src/jackdaw/serve.py:98-130 | when it ends and how, and that the attempts follow the backoff schedule whatever they take |
| Backoff.DelayFormula | src/jackdaw/serve.py:129-130 | the n-th delay is min(60 * 2^n, 900) |
| Backoff.Spacing | src/jackdaw/serve.py:114-130 | after a failed attempt the next begins exactly that much later |
| Backoff.UnderFivePerHour | src/jackdaw/serve.py:45-49 | every half-open hour holds at most 4 attempt starts if and only if four attempts in a row from each of the first four on take 2700, 1860, 1080 and 420 seconds by themselves |
| Backoff.AttemptsPerHour | src/jackdaw/serve.py:45-49 | no half-open hour holds more than 7 attempt starts, none that begins after the fourth attempt more than 4 |
| Backoff.FiveFromTheFourth | src/jackdaw/serve.py:45-49 | an hour that begins with the fourth attempt can hold 5 |
| Backoff.SevenInTheFirstHour | src/jackdaw/serve.py:45-49 | a schedule that reaches 7 |
| RelayCertFiles.NeverPartial | src/jackdaw/services/relay_cert.py:28-46 | after any renewals and crashes the installed files are whole, the key is never older than the certificate, and the two differ exactly while the last rename was a key's |
| RelayCertFiles.SslDir.WriteRelayCert | src/jackdaw/services/relay_cert.py:37-45 | what is on disk when the writer completes or dies at each point, leftover temporary files included |
| RelayCertFiles.EventsRun | src/jackdaw/services/relay_cert.py:37-45 | those outcomes are runs of the file events |

## Left out

- HTTP serving, request models, logging, settings and the health listener: plumbing around the steps modelled here.
- Signatures, thumbprints, X.509 and CSR parsing: predicates or uninterpreted functions of the model's inputs.
- Relay.Relay.NewOrder: domain policy is not modelled, and its verdict and the quota's are one input (`admitted`); the quota itself is `OrderQuota`.
- Relay.Relay.AcknowledgeChallenge: the read of the two rows and the commit are one step, while the code awaits between them; a second POST can overwrite what another transaction commits in that window, and `ReadyAndValidOrders` and the results built on it depend on there being no such window.
- IssuanceProofs.TxtStays: domains, record names and locks are compared as exact strings, as the code does; that DNS takes names differing only in case for one is not modelled, so it does not cover two such domains; nor does it cover domains that end in a dot.
- IssuanceProofs.ReturnsOwnCertificate: assumes that order and certificate URLs, like finalize URLs, each name one CA order, and that a CA order that is valid never changes again.
- OrderProgress.Settles: the order half is for orders with one authorization; one with several can wait in `processing` for its client to acknowledge the rest.
- Order expiry: `README.md:202-204` says an order expires after 24 hours, but no code compares `expires_at`; orders have no clock in the model.
- Freshness of UUIDs, those of new accounts included, and of random nonce values is assumed; the clock of the nonce table never runs backwards.
- The `error` and `expires_at` columns, timestamps of orders outside the quota, and problem documents: no status depends on them.
- Isolation levels and objects cached by a session: each committed transaction is one step.
- Failures of the database itself: a task then ends without writing, and progress is stated for operations that succeed.
- Orders with several authorizations exist in the model as imported rows; finality, and that a processing order is worked on, are stated for orders with one, which is what new-order creates, all other order properties for any number.
- A jwk-signed request is known by the empty account name, so an order without an account row exists in the model and takes the missing-account branch.
- The inside of the ACME library: the issuance model takes the step order from the comment on `order_cert`, and lets the CA, the DNS provider and failures answer in any way those steps allow.
- Restarts of the shared client: the issuance model covers one lifetime of it, with whatever DNS records and CA orders it finds.
- A recovered certificate need not match the caller's CSR; that it does is not claimed.
- The DNS-01 TXT value as a digest: a value is a string here, and two flows may use the same.
- Domains ending in a dot: the challenge name then does not end in the apex, so rejoining and distinctness are stated for names without a trailing dot; the apex itself is covered for all domains.
- Edits of a Namecheap zone by other parties while a cycle is under way.
- Cloudflare, Porkbun and Route 53: remote calls without a local protocol.
- JSON with whitespace, numbers or nested values: the stored key is a flat object of strings.
- Permission bits of the key file and loss of power: a completed write is on the disk.
- The daily renewal loop, migrations, key change and account creation: single-branch checks.
- Address blocking and URL building in HTTP-01 validation: the outcome of an attempt is an input.
