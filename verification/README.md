# A verified model of the license server

The server sells, issues and enforces software licenses. This project models the parts of it that are
hard to get right and proves, in Dafny 4.11, what they promise over every input and every run:

* **Billing automation** (`Tables`, `BillingEvents`, `BillingSpec`, `Billing`, `BillingInvariant`,
  `BillingRuns`, `BillingExactlyOnce`, `BillingOrder`, `BillingWorkers`, `BillingEffects`, `BillingCases`). Signed provider events are
  claimed in a ledger and applied to a subscription overlay and its license; a grace worker, a
  reconciliation worker, a ledger pruner and administrators touch the same rows. `Billing.Tenant` updates
  the tables in place and is proved against the functions of `BillingSpec`; `BillingEffects` says in the
  columns of the tables what each of those functions does, and every statement about runs is made over them.
* **Revocation list and online enforcement** (`Enforcement`, `Platform`, `CrlRuns`, `CrlCoverage`,
  `Staleness`, `Binding`, `Replays`, `Sorting`, `Json`, `JsonReader`, `CrlBytes`). The revoked set, the versioned log of published lists, a
  client that follows them, the canonical bytes they are signed over with an independent JSON reader, and
  the short-lived tokens that bound how long a revoked license can look valid. `Platform` is the whole
  server as one state machine: billing, seats, enforcement and publication steps on one database.
* **LIC1 tokens** (`Text`, `Base64Url`, `Base64Spellings`, `Cbor`, `CborWriter`, `Lic1`, `Lic1RoundTrip`, `Verifier`,
  `AnchorRuns`). UTF-8, base64url (section 5 of RFC 4648), CBOR (section 3 of RFC 8949), the demo decoder
  and the offline `verify` pipeline with saturating 64-bit arithmetic and a persisted anchor.
* **Seats** (`Fingerprints`, `Seats`, `SeatAccess`, `SeatRace`). Activation transactions interleaved statement by
  statement under the license's row lock, with deactivations committing at any point.
* **Last owner** (`Users`, `LastOwner`), **log redaction** (`Redaction`, `RedactionNames`, `RedactionSafety`) and **audit
  paging** (`Audit`, `Paging`).

Code that updates state is a class whose methods state their whole effect; code that computes is a
function with lemmas about it. Times are integer seconds (microseconds in the audit log). Calls into
libraries (Ed25519, HMAC, SHA-256, the signing service, the regex scrubber) are parameters, and what a
theorem needs of them is in its `requires`.

## Where the code does not do what one might expect

Each of these follows the code. The exact condition is proved, and where it is not a plain input a witness
shows that the case occurs.

* Arrival order matters for a late refund: a refund that is older than an event already applied is dropped
  as stale, one that arrives first revokes for good (`BillingOrder.OrderIndependentIff`).
* A ledger row can say `applied` although nothing moved, because the license was already revoked
  (`BillingExactlyOnce.GuardsAgree`, witness `BillingCases.AppliedInVain`). For the same reason reconciliation
  of a revoked license reports a correction on every pass (`BillingWorkers.ReconcileTwice`, witness
  `BillingCases.CorrectedInVain`).
* A license issued with the epoch as its expiry has a token that has expired and a row without expiry; a
  renewal stores the epoch (`BillingCases.IssuedExpiryIff`, `BillingCases.ZeroExpiryParts`,
  `BillingCases.ProvisionedExpiryIff`, witness `BillingCases.ZeroPeriodEnd`).
* A retried nonce is answered with the windows and the license of the retry, counted from the first use,
  although the comment in the code says that this reproduces the original token's. The advertised expiry is
  the signed one under the condition of `Replays.AdvertisedIsSignedIff` only; it can be too early
  (`Replays.RefusedFirst`) and too late (`Replays.RenewedInBetween`). When plan windows have become shorter, the
  token can also outlive the staleness that the answer discloses (`Replays.DisclosureIff`, witness
  `Replays.WindowsShortened`).
* An activation can be answered, by a replay or a refresh, with a credential for a row that was deactivated
  (`Seats.ReplayLiveIff`, `Seats.ReuseLiveIff`, witness `Seats.ReplayOfReleased`).
* The fingerprint match treats every threshold below one as one (`Fingerprints.BestIsMaximal`).
* The demo decoder loses a leading byte-order mark and an entitlement named `__proto__`
  (`Lic1RoundTrip.Lic1RoundTripIff`), and its base64 accepts spellings the verifier refuses
  (`Base64Spellings.DecodersAgreeIff`, `Base64Spellings.BrowserAloneIff`, witness `Base64Url.BrowserIsForgiving`).
* Redacting twice, as the logger does with a logged error, hashes a fingerprint twice; the comment in the
  code calls the second pass idempotent (`RedactionSafety.SecondPassIff`, witness
  `RedactionNames.FingerprintHashedTwice`).
* The audit cursor keeps milliseconds, the log microseconds: rows of the millisecond in which a page ends can
  be passed over, for good (`Paging.NextPageIff`, `Paging.FollowingCompleteIff`, witness
  `Paging.SameMillisecondLost`).

## Model

| member | source | states |
|---|---|---|
| Billing.Tenant.HandleWebhook | src/server/modules/billing/webhook.ts:172-223 | one delivery, from connection lookup to acknowledgement: reply and tables are those of `BillingSpec.Deliver`, which the rows of `BillingEffects` below state column by column, and any fault or duplicate rollback leaves every table as it was |
| Billing.Tenant.Dispatch | src/server/modules/billing/webhook.ts:109-164 | claim-then-apply of one verified event; what has been written when it throws is only ever rolled back |
| Billing.Tenant.Dead | src/server/modules/billing/webhook.ts:65-76 | a dead letter is a new ledger row, or a duplicate |
| Billing.Tenant.ApplyProvision | src/server/modules/billing/lifecycle.ts:88-157 | creates customer, license and link together, or reports unmapped, duplicate or the fault |
| Billing.Tenant.ApplyRenew | src/server/modules/billing/lifecycle.ts:175-214 | reinstates and refreshes a license that is not revoked, then moves the overlay under the recency guard; the license it leaves is stated by `BillingEffects.RenewEffect` |
| Billing.Tenant.ApplyGrace | src/server/modules/billing/lifecycle.ts:222-257 | opens a grace window of the resolved length, or nothing on a revoked license |
| Billing.Tenant.ApplyRevoke | src/server/modules/billing/lifecycle.ts:267-289 | revokes and marks refunded |
| Billing.Tenant.ResolveCustomer | src/server/modules/billing/lifecycle.ts:68-79 | upserts the pseudonymous customer |
| Billing.Tenant.LinkSubscription | src/server/modules/billing/subscription-repo.ts:107-134 | inserts unless either unique key is taken |
| Billing.Tenant.ApplySubscriptionState | src/server/modules/billing/subscription-repo.ts:143-160 | the guarded overlay update happens exactly when the event is newer than the anchor |
| Billing.Tenant.RecordEvent | src/server/modules/billing/ledger-repo.ts:99-122 | inserts exactly when the event id is not in the ledger |
| Billing.Tenant.PruneBillingEvents | src/server/modules/billing/ledger-repo.ts:181-184 | deletes exactly the rows received before the horizon and counts them |
| Billing.Tenant.PruneBillingLedger | src/server/modules/billing/retention-worker.ts:55-73 | prunes at the clamped retention |
| Billing.Tenant.SuspendElapsed | src/server/modules/billing/grace-worker.ts:75-105 | re-checks the row under lock and suspends only what has run out |
| Billing.Tenant.SweepGrace | src/server/modules/billing/grace-worker.ts:112-167 | one sweep over a list read earlier is the fold of the single steps |
| Billing.Tenant.ReconcileOne | src/server/modules/billing/reconcile-worker.ts:207-243 | one candidate: stale, in step, unsupported and corrected outcomes |
| Billing.Tenant.Reconcile | src/server/modules/billing/reconcile-worker.ts:251-299 | the pass over all candidates and its count of corrections |
| Billing.Tenant.RevokeLicense | src/server/modules/issuance/lifecycle.ts:46-56 | revoking is idempotent and total on known licenses |
| Billing.Tenant.SuspendLicense | src/server/modules/issuance/lifecycle.ts:59-67 | only an active license is suspended |
| Billing.Tenant.ReinstateLicense | src/server/modules/issuance/lifecycle.ts:70-78 | only a suspended license is reinstated |
| Billing.Tenant.TransferLicense | src/server/modules/issuance/lifecycle.ts:84-105 | a live license moves to a known customer within its transfer limit |
| Billing.Tenant.IssueLicense | src/server/modules/issuance/licenses.ts:101-232 | the refusals in their order, else one new active license |
| BillingRuns.StepKeeps | src/server/modules/billing/lifecycle.ts:88-289 | every billing, worker and admin step keeps the table invariant (one-to-one links, a deadline exactly in a grace state, refunded implies revoked) and never re-points a link, lowers an anchor or leaves a final state |
| BillingRuns.RunKeeps | src/server/modules/billing/subscription-repo.ts:107-160 | the same between any two points of any run |
| BillingExactlyOnce.AtMostOnce | src/server/modules/billing/webhook.ts:109-164 | in every run an event id with one content has an effect at most once, also after its row was pruned |
| BillingExactlyOnce.SecondDeliveryInert | src/server/modules/billing/ledger-repo.ts:99-122 | of two deliveries the later is inert once the earlier had an effect |
| BillingExactlyOnce.RetainedRedelivery | src/server/modules/billing/ledger-repo.ts:99-122 | while the row is retained a redelivery changes no table, and exactly when it is not acknowledged as a duplicate |
| BillingExactlyOnce.AckCommits | src/server/modules/billing/webhook.ts:119-163 | `applied` and `deadletter` commit exactly one row, `duplicate` at most one, a fault none |
| BillingExactlyOnce.PrunedIsBeyondFloor | src/server/modules/billing/config.ts:119-122 | a row is pruned exactly when older than the horizon, never within the redelivery floor |
| BillingExactlyOnce.RedeliveryWithinFloor | src/server/modules/billing/retention-worker.ts:55-73 | within the floor a row outlives every prune of the run and stops every redelivery |
| BillingExactlyOnce.GuardsAgree | src/server/modules/billing/events.ts:143-148 | stale check and SQL guard never disagree; an applied event takes overlay and anchor exactly when the license is live or the event a refund |
| BillingOrder.LastWriterWins | src/server/modules/billing/webhook.ts:144-163 | any order with any redeliveries ends with state and anchor of the newest event |
| BillingOrder.OrderIndependentIff | src/server/modules/billing/lifecycle.ts:175-257 | arrival order is irrelevant exactly when no refund is among the events or the newest is one |
| BillingOrder.LateRefundBreaksOrder | src/server/modules/billing/webhook.ts:144-151 | two orders that end differently |
| BillingWorkers.GraceOrigin | src/server/modules/billing/lifecycle.ts:222-257 | a running window was opened by a cancel or payment failure and nothing was applied since |
| BillingWorkers.TimedSuspension | src/server/modules/billing/grace-worker.ts:75-97 | the worker suspends only after the positive resolved grace seconds have passed since that event's step |
| BillingWorkers.SweepClears | src/server/modules/billing/grace-worker.ts:112-167 | after a sweep no listed past-due or grace row whose deadline had come is left, unless its license is revoked |
| BillingWorkers.ReconcileRepairs | src/server/modules/billing/reconcile-worker.ts:207-243 | a correction leaves no drift exactly when it can take hold, never lowers the anchor, and no correction means no change |
| BillingWorkers.ReconcileTwice | src/server/modules/billing/reconcile-worker.ts:207-243 | the second pass with one snapshot is the identity, and when it still reports a correction |
| BillingWorkers.ReconcileEqualsWebhook | src/server/modules/billing/reconcile-worker.ts:182-243 | a correction ends where the corresponding webhook event at that time would |
| BillingEffects.AppliedIff | src/server/modules/billing/webhook.ts:109-164 | an event other than a creation is acknowledged as applied exactly when the connection is enabled, the signature good, the kind known, the subscription linked and seen, the event newer than all applied to it, and its id unclaimed |
| BillingEffects.OtherwiseRecorded | src/server/modules/billing/webhook.ts:109-151 | every other verified event leaves one ledger row at most, in all its columns: rejected if stale, else a dead letter with its reason, and nothing if claimed |
| BillingEffects.RenewEffect | src/server/modules/billing/lifecycle.ts:175-214 | a renewal of a license that is not revoked leaves it active, with the entitlements and seats of the plan where the catalog knows it and the paid period's end, its other columns and all other rows as they were, and the overlay active |
| BillingEffects.RenewalActivates | src/server/modules/billing/lifecycle.ts:184-204 | the same of every delivery that is acknowledged as applied |
| BillingEffects.DeliveredEffect | src/server/modules/billing/webhook.ts:153-163 | for every kind of event, the license, overlay, customer and ledger rows after an applied delivery |
| BillingEffects.SuspendEffect | src/server/modules/billing/grace-worker.ts:75-105 | the worker suspends and cancels exactly a past-due or grace row whose deadline has come and whose license is not revoked, and changes nothing else |
| BillingEffects.SuspendedThenRenewed | src/server/modules/billing/lifecycle.ts:184-204 | a license the worker suspended is active again after the next applied renewal |
| BillingEffects.CorrectedIff | src/server/modules/billing/reconcile-worker.ts:90-122 | a pass corrects exactly when the provider contradicts the overlay, its snapshot is newer than all applied, and a grace policy is at hand where one is needed |
| BillingEffects.CorrectedEffect | src/server/modules/billing/reconcile-worker.ts:207-243 | the license and overlay rows after a correction, for every status of the provider |
| BillingEffects.GrantedIff | src/server/modules/billing/lifecycle.ts:88-157 | a creation grants a license exactly when it is unclaimed, its subscription not linked, its plan mapped, known and issuable, its customer not erased and the signer ready |
| BillingEffects.GrantedEffect | src/server/modules/billing/lifecycle.ts:88-157 | the rows that a granted creation adds, in all their columns |
| BillingEffects.PseudonymsApart | src/server/modules/billing/lifecycle.ts:68-79 | two customers share a pseudonym exactly when provider and customer id are the same |
| BillingEffects.SuspendReinstateRoundTrip | src/server/modules/issuance/lifecycle.ts:59-78 | suspending and reinstating undo each other |
| BillingEffects.TransfersBounded | src/server/modules/issuance/lifecycle.ts:84-105 | over any number of transfers a license changes its owner within its limit only, and nothing but owner and count |
| BillingEvents.ResolveGraceSeconds | src/server/modules/billing/config.ts:100-108 | the plan's own positive override, else the connection's positive default, else the server's: never zero or negative |
| BillingCases.IssuedExpiryIff | src/server/modules/issuance/licenses.ts:131-203 | the issued row expires as requested, and as its token does, exactly when the request is not the epoch |
| BillingCases.ZeroExpiryParts | src/server/modules/issuance/licenses.ts:169-203 | for the epoch the server never calls the license expired and the verifier always does |
| BillingCases.ProvisionedExpiryIff | src/server/modules/billing/lifecycle.ts:124-130 | the same for a provisioned license and its period end |
| BillingCases.RenewedExpiry | src/server/modules/billing/lifecycle.ts:196-204 | a renewal stores the period end it is given, the epoch included |
| BillingCases.ZeroPeriodEnd | src/server/modules/billing/lifecycle.ts:88-214 | one period end, the epoch, grants a license without end and then ends it |
| BillingCases.AppliedInVain | src/server/modules/billing/lifecycle.ts:184-185 | an `applied` acknowledgement that changed neither overlay nor license |
| BillingCases.CorrectedInVain | src/server/modules/billing/reconcile-worker.ts:207-243 | two passes that both report a correction and change nothing |
| Json.CanonicalIsPrinted | src/server/modules/enforcement/crl.ts:58-73 | sorting keys while printing equals printing the value put in order |
| JsonReader.ReadPrinted | src/server/modules/enforcement/crl.ts:58-73 | a reader of RFC 8259 inverts the printer whatever follows |
| JsonReader.CanonicalRoundTrip | src/server/modules/enforcement/crl.ts:58-73 | reading canonical text gives the value with its keys in order |
| JsonReader.CanonicalIff | src/server/modules/enforcement/crl.ts:52-73 | canonical texts are equal exactly when the values are the same up to key order |
| Sorting.SortIsCanonical | src/server/modules/enforcement/crl.ts:75-78 | sorted lists are equal exactly when the multisets are |
| Sorting.SortAscends | src/server/modules/enforcement/crl.ts:58-78 | sorting puts keys in ascending order of their UTF-16 code units and loses nothing |
| CrlBytes.SameBytesIff | src/server/modules/enforcement/crl.ts:86-94 | two documents have equal signed bytes exactly when version, times and both id multisets agree |
| CrlBytes.DocumentRoundTrip | src/server/modules/enforcement/crl.ts:80-94 | a document is recovered from its canonical text |
| CrlBytes.StoredReencodes | src/server/modules/enforcement/crl.ts:137-152 | a stored row, whatever the key order of its JSON column, re-encodes to the bytes that were signed |
| CrlBytes.InsertedIsStored | src/server/modules/enforcement/crl.ts:221-229 | the text inserted into the JSON column reads back as the sorted ids |
| CrlBytes.ServedReencodes | src/server/modules/enforcement/crl.ts:101-111 | a client that parses the served artifact rebuilds exactly the signed bytes |
| CrlBytes.CanonicalBytesInjective | src/server/modules/enforcement/crl.ts:93 | UTF-8 of canonical texts loses nothing, lone surrogates included |
| CrlRuns.LogHolds | src/server/modules/enforcement/crl.ts:160-230 | in every run of the whole server versions are 1, 2, 3, ... and every list contains the earlier ones |
| CrlRuns.LogGrows | src/server/modules/enforcement/crl.ts:222-229 | published lists are never changed or dropped |
| CrlRuns.SweepIsCurrent | src/server/modules/enforcement/crl-worker.ts:90-117 | after a sweep the latest list holds exactly the revoked licenses of the product and the deactivated seats of its licenses, said of the columns of the tables |
| CrlCoverage.SweepPublishes | src/server/modules/enforcement/crl-worker.ts:90-117 | a sweep appends the next version exactly when somebody is revoked and there is no list, or the latest list says something else than the tables or has run out; the new list says what the tables say |
| CrlCoverage.RevokedIsListed | src/server/modules/enforcement/crl.ts:160-177 | in every run, a license once revoked and a seat once deactivated is in every list of its product from the next sweep on |
| CrlCoverage.RevokedHasAList | src/server/modules/enforcement/crl-worker.ts:90-117 | and there is such a list |
| CrlCoverage.ListedIsRevoked | src/server/modules/enforcement/crl.ts:160-177 | conversely, whatever any list holds is a revoked license or a deactivated seat of that product |
| CrlCoverage.ClientLearns | src/server/modules/enforcement/crl.ts:120-122 | a client that is offered one list since that sweep, in any order among others, rejects the license and the seat |
| CrlRuns.ClientNeverUnrevokes | src/server/modules/enforcement/crl.ts:120-122 | any order of genuine lists leaves the client with the newest, holding every id it ever saw revoked |
| CrlRuns.SameSetIff | src/server/modules/enforcement/crl-worker.ts:45-49 | the comparison is set equality on lists without repeats |
| CrlRuns.SameSetNeedsDistinct | src/server/modules/enforcement/crl-worker.ts:45-49 | the comparison with a list is right against every other list exactly when that list has no repeats |
| CrlRuns.SameRevokedIdsIff | src/server/modules/enforcement/crl-worker.ts:51-52 | on stored and queried arrays, which are in order, the comparison decides whether the revoked set changed |
| CrlRuns.CrlWorker.ProjectIds | src/server/modules/enforcement/crl.ts:160-177 | the ordered arrays of the revoked licenses of the product and of the deactivated seats of its licenses, said of the columns of the tables |
| CrlRuns.Query | src/server/modules/enforcement/crl.ts:161-172 | the ordered listing of a set of ids |
| CrlRuns.CrlWorker.GetLatestCrl | src/server/modules/enforcement/crl.ts:238-250 | the stored row with the highest version, none exactly when nothing is published |
| CrlRuns.CrlWorker.GenerateNext | src/server/modules/enforcement/crl.ts:189-230 | appends one row with the next version and the current revoked set in order; its ids are those of the revoked licenses and deactivated seats in the tables |
| CrlRuns.CrlWorker.PublishProduct | src/server/modules/enforcement/crl-worker.ts:90-117 | comparing the id arrays, publishes exactly when the set changed or the latest list has run out |
| CrlRuns.OnlyCandidatesNeed | src/server/modules/enforcement/crl-worker.ts:73-83 | a product outside the candidate query never needs a new list |
| CrlRuns.CrlWorker.RunOnce | src/server/modules/enforcement/crl-worker.ts:148-176 | a sweep over the products in which a faulting one is left as it was; nothing while another sweep runs or without a signer |
| Platform.StepKeeps | src/server/modules/issuance/lifecycle.ts:46-78 | revoked and deactivated are final under every step of billing, seats, enforcement and publication |
| Platform.RunKeeps | src/server/modules/activation/deactivate.ts:21-40 | the same over whole runs |
| Platform.SeatMoveIsStep | src/server/modules/activation/activate.ts:143-175 | what an interleaved activation or deactivation writes is a step of the server |
| Enforcement.EnforcementService.Run | src/server/modules/enforcement/validate.ts:179-296 | one validation or heartbeat: verdict, token, windows, check-in row and anchor, which `Enforcement.BeatOutcome` states in columns and `Binding.AcceptedIsBound` in claims |
| Enforcement.BeatOutcome | src/server/modules/enforcement/validate.ts:179-296 | a beat is answered as valid, with a token, exactly when license and row are in force, with a signer fault only then, with a conflict exactly on another activation's nonce; the first use of a nonce is recorded as answered and raises the anchor if valid, and nothing else is written |
| Enforcement.EnforcementService.RecordCheckin | src/server/modules/enforcement/checkin-repo.ts:76-115 | inserts once per nonce, replays for the same activation, refuses another's |
| Enforcement.EnforcementService.AdvanceAnchor | src/server/modules/enforcement/checkin-repo.ts:126-136 | raises the anchor floor or leaves it |
| Enforcement.EnforcementService.PruneExpiredCheckins | src/server/modules/enforcement/checkin-repo.ts:145-151 | deletes by age only |
| Enforcement.RevokedGetsNoToken | src/server/modules/enforcement/enforce.ts:45-67 | a revoked license is answered without a token, replay or not |
| Enforcement.AdvertisedExpiry | src/server/modules/enforcement/validate.ts:137-147 | every valid answer advertises the current license and windows from the nonce's first use on; for a token minted by the beat that is the signed expiry exactly when first use and beat coincide or the license expires within both windows |
| Enforcement.ReplayReturnsOriginal | src/server/modules/enforcement/validate.ts:253-274 | a repeated nonce writes nothing, returns the stored token exactly when its first use was a renewal, and advertises server time, expiry and renewal from the first use under the retry's windows |
| Replays.AdvertisedIsSignedIff | src/server/modules/enforcement/validate.ts:132-147 | over runs, the advertised expiry of a returned token is the signed one exactly when both windows, each from its own time and under its own license expiry, end together |
| Replays.RefusedFirst | src/server/modules/enforcement/validate.ts:262-274 | a nonce first used while refused: advertised to end before the signed expiry |
| Replays.RenewedInBetween | src/server/modules/enforcement/validate.ts:262-274 | a license renewed between beat and retry: advertised to end after the signed expiry |
| Enforcement.BeatKeeps | src/server/modules/enforcement/validate.ts:179-296 | anchors never go down, a nonce keeps its first record |
| Enforcement.EffectiveExpiry | src/server/modules/activation/claims.ts:19-28 | the earlier of license expiry and time to live, none exactly when neither is set |
| Enforcement.ComputeStalenessWindow | src/server/modules/enforcement/config.ts:147-157 | the disclosed window covers the renewal window |
| Staleness.NoTokenAfterRevocation | src/server/modules/enforcement/validate.ts:194-294 | after a revocation no step of the run returns a token for the license |
| Staleness.RowOrigin | src/server/modules/enforcement/checkin-repo.ts:76-115 | every check-in row of a run was written by an earlier beat with its nonce, activation, time and verdict |
| Staleness.ReturnedWasMinted | src/server/modules/enforcement/validate.ts:253-294 | a returned token was minted by this beat or, exactly when the nonce's row holds one, by the beat that wrote the row |
| Staleness.SignedExpiryHolds | src/verifier-core/src/verify.rs:177-181 | the offline verifier refuses a genuine token past its signed expiry |
| Staleness.BoundedStaleness | src/server/modules/enforcement/token.ts:52-75 | every token ever returned for a license is refused offline at every clock past revocation plus the longest renewal window in use until then |
| Binding.AcceptedIsBound | src/server/modules/enforcement/token.ts:52-75 | in every run, a returned token that the offline verifier accepts was minted by a beat of the same activation while row and license were in force; the machine carries at least `fpMin` of that row's signals in their places, and the accepted claims name that row's license, product, plan, customer, seats and signals, the beat's time, the entitlements in force and an expiry within window and license |
| Binding.AcceptedAsSigned | src/server/modules/activation/claims.ts:40-58 | accepted claims are the ones that were signed, the key id apart |
| Binding.DecimalOnce | src/server/modules/activation/claims.ts:46 | a license id in the claims names one license |
| Replays.DisclosureIff | src/server/modules/enforcement/config.ts:147-157 | over runs, the seconds disclosed with an answer bound the life of its token exactly when the minting beat's window or license expiry ends within them; so they do for a fresh token and for unchanged windows |
| Replays.DisclosureCovers | src/verifier-core/src/verify.rs:177-181 | there, the verifier refuses the token at every clock past a revocation plus the disclosed seconds |
| Replays.WindowsShortened | src/server/modules/enforcement/validate.ts:262-274 | a stored token that outlives the disclosed seconds of its retry |
| Text.TextRoundTrip | examples/license-demo-app/src/token.ts:60-66 | UTF-8 text survives the decoder exactly when it does not start with a byte-order mark |
| Base64Url.StrictDecodeIff | src/verifier-core/src/token.rs:94-105 | the verifier's decoder accepts exactly the encoder's spelling |
| Base64Url.BrowserRoundTrip | examples/license-demo-app/src/token.ts:19-25 | the browser's decoder inverts the encoder |
| Base64Url.BrowserIsForgiving | examples/license-demo-app/src/token.ts:19-25 | which two-character texts the two decoders tell apart |
| Base64Spellings.BrowserReadsIff | examples/license-demo-app/src/token.ts:19-25 | exactly which texts the browser's decoder reads, and that white space and equals signs mean nothing to it |
| Base64Spellings.StrictReadsIff | src/verifier-core/src/token.rs:101-105 | exactly which texts the verifier's decoder reads |
| Base64Spellings.DecodersAgreeIff | examples/license-demo-app/src/token.ts:19-25 | for every text, when the two decoders give the same answer |
| Base64Spellings.BrowserAloneIff | examples/license-demo-app/src/token.ts:19-25 | for every text, when the browser alone reads it |
| Base64Url.CopyB64UrlToBytes | examples/license-demo-app/src/token.ts:19-25 | the copying loop fills the array with the decoded bytes |
| Cbor.Reader.Read | examples/license-demo-app/src/token.ts:47-90 | on arbitrary bytes the reader terminates with the value and position of the specification, or fails where it fails |
| Cbor.Reader.Len | examples/license-demo-app/src/token.ts:36-46 | the length argument in all its widths |
| Cbor.Reader.ReadArray | examples/license-demo-app/src/token.ts:67-72 | the array loop |
| Cbor.Reader.ReadMap | examples/license-demo-app/src/token.ts:73-80 | the map loop, with assignment to `__proto__` |
| CborWriter.ReadWritten | src/verifier-core/src/token.rs:123-134 | the reader inverts the issuers' encoding whatever follows |
| Lic1.DecodeClaims | examples/license-demo-app/src/token.ts:93-116 | the demo decoder over prefix, transport, CBOR and claim fields |
| Lic1RoundTrip.EntitlementsIff | examples/license-demo-app/src/token.ts:73-80 | entitlements come back whole exactly when no key is lost |
| Lic1RoundTrip.Lic1RoundTripIff | examples/license-demo-app/src/token.ts:93-116 | every issued token decodes, and shows what was signed exactly when no shown text or key starts with a byte-order mark and no key is `__proto__` |
| Verifier.AcceptedIsSigned | src/verifier-core/src/verify.rs:123-161 | an accepted token is letter by letter `LIC1.` and the base64url text of version, payload and a 64-byte signature that holds for domain tag, version and payload under the usable key its claims name |
| Verifier.ClaimsPassIff | src/verifier-core/src/verify.rs:163-193 | signed claims pass exactly when not from the future, not behind the anchor, not expired and on their machine, in unbounded arithmetic |
| Verifier.IssuedAcceptedIff | src/verifier-core/src/verify.rs:123-202 | a genuine token is accepted exactly when size, entitlement count and key are in order and its claims pass, all in closed form |
| Verifier.TokenAnswer | src/verifier-core/src/verify.rs:123-161 | for every well-formed token, genuine or not, the answer check by check: size and entitlements, key, its validity, the signature over tag, version and payload |
| Verifier.ClaimsAnswer | src/verifier-core/src/verify.rs:163-202 | for every signed claims, the error or the acceptance and next anchor, in closed form |
| Lic1.TransportSplit | src/verifier-core/src/token.rs:107-119 | the split recovers version, payload and signature |
| Verifier.Keyring.Insert | src/verifier-core/src/keyring.rs:70-77 | stores the entry under a known id, or under a new one while there are fewer than 32; changes no other |
| Verifier.CountMatches | src/verifier-core/src/fingerprint.rs:17-26 | the index loop decides whether enough positions agree |
| Verifier.Anchor.Observe | src/verifier-core/src/anchor.rs:22-26 | the anchor becomes the later of both |
| Verifier.Anchor.RolledBack | src/verifier-core/src/anchor.rs:29-32 | true exactly when clock plus skew, unbounded, is below the anchor; saturation shows at the largest clock only |
| Verifier.RolledBackIsRefused | src/verifier-core/src/verify.rs:169-176 | `verify` refuses claims for a rolled-back clock exactly where the anchor calls it rolled back or the claims are from the future |
| AnchorRuns.AnchorIsMax | src/verifier-core/src/anchor.rs:37-43 | over any run the persisted anchor is the maximum of its start and the accepted clocks |
| AnchorRuns.AcceptedWithinSkew | src/verifier-core/src/verify.rs:163-176 | no accepted clock is further behind the anchor than the skew, saturation included |
| AnchorRuns.ExpiredForGood | src/verifier-core/src/verify.rs:163-196 | after a success past expiry plus skew a token with that expiry is never accepted again |
| Fingerprints.OverlapCount | src/server/modules/activation/fingerprint.ts:16-21 | the loop counts distinct shared signals |
| Fingerprints.ChooseMatch | src/server/modules/activation/fingerprint.ts:37-57 | the exact row, else the loop's best candidate |
| Fingerprints.BestIsMaximal | src/server/modules/activation/fingerprint.ts:45-57 | the best re-match is unbeaten in overlap, then recency, and there is none exactly when none shares enough |
| Fingerprints.MatchIsMaximal | src/server/modules/activation/fingerprint.ts:37-57 | the machine's own row wins; new exactly when it has none and nobody shares enough |
| Seats.StepKeeps | src/server/modules/activation/activate.ts:75-183 | every statement of every interleaved transaction keeps nonces unique, active machines distinct and the lock's promises |
| Seats.SeatCap | src/server/modules/activation/activate.ts:122-127 | only a creation raises the number of active seats, by one, within the current limit |
| Seats.NoOverbooking | src/server/modules/activation/activate.ts:75-183 | no interleaving takes the active rows above the limit by a creation |
| Seats.OnlyNoncesConflict | src/server/modules/activation/activate.ts:176-182 | the unique violation reported as a replayed nonce really is one |
| Seats.ReplayChangesNothing | src/server/modules/activation/activate.ts:94-110 | a replay writes nothing and answers for the same license and machine |
| Seats.LiveUntilReleased | src/server/modules/activation/deactivate.ts:27-39 | over runs, an active row stays active exactly until a deactivation of it commits |
| Seats.ReplayLiveIff | src/server/modules/activation/activate.ts:100-108 | the row a replay names is active exactly when no deactivation of it has committed since it was |
| Seats.ReuseLiveIff | src/server/modules/activation/activate.ts:144-160 | the row a refresh names is active exactly when no deactivation of it committed between decision and write |
| Seats.ReplayOfReleased | src/server/modules/activation/activate.ts:100-108 | a replay answered for a deactivated row |
| Seats.AloneIsPlain | src/server/modules/activation/activate.ts:75-183 | undisturbed, the statement-by-statement machine computes the whole transaction, which `SeatAccess.PlainExplained` states in the columns of the tables |
| SeatAccess.SeatedOnLiveLicense | src/server/modules/activation/activate.ts:83-91 | in every interleaving, who is given a seat or told of one took the lock while the license was active and not expired at that clock, and the license was the same when it finished |
| SeatAccess.DeadLicenseRefused | src/server/modules/activation/activate.ts:88-91 | on any other license the answer is exactly that it is not active, and no row changes |
| SeatAccess.PlainExplained | src/server/modules/activation/activate.ts:75-183 | for every outcome of a whole activation, the exact condition it implies on license, nonce, re-match and seat count, and every column of the row it writes |
| SeatAccess.MatchExplained | src/server/modules/activation/fingerprint.ts:37-57 | which row a machine takes, in the rows' signals and times: its own, else the one sharing most signals and of those the latest; none exactly when the machine is new |
| SeatAccess.SeatService.Activate | src/server/modules/activation/activate.ts:60-184 | too few signals, no signer and an unknown license, by id or by token, are refused in that order and write nothing; from the lock on, outcome and rows are those that `SeatAccess.PlainExplained` states and those of the undisturbed machine |
| SeatAccess.SeatService.Deactivate | src/server/modules/activation/deactivate.ts:21-40 | frees an active seat, leaves any other row as it is, and answers whether there is one |
| SeatRace.ExactlyMin | src/server/modules/activation/activate.ts:112-175 | N new machines racing for S seats: exactly min(N, S) succeed in every interleaving |
| Users.CurrentRoleIsHighest | src/server/modules/admin/users.ts:44-48 | the fold finds the highest role; it is owner exactly when an owner row exists |
| Users.ChangedIsReported | src/server/modules/admin/users.ts:183-199 | the outcome is the new role and status, and only a guarded update takes ownership away |
| Users.UpdateOutcome | src/server/modules/admin/users.ts:147-200 | an update is refused exactly when it takes ownership from an owner and nobody else is an active owner; else status and roles become what was asked for, and the answer is the highest role and the status then |
| Users.UserStore.UpdateUser | src/server/modules/admin/users.ts:140-201 | undisturbed, the user table and the answer are those that `Users.UpdateOutcome` states |
| Users.UserStore.CreateUser | src/server/modules/admin/users.ts:54-85 | a new user with one role, nothing on a taken address |
| Users.UserStore.ProvisionFirstAdmin | src/server/modules/admin/users.ts:100-131 | the new user is an active owner, nothing on a taken reference |
| LastOwner.StepKeeps | src/server/modules/admin/users.ts:147-200 | every statement of every interleaved update keeps what each transaction has read and locked true |
| LastOwner.NeverOwnerless | src/server/modules/admin/users.ts:140-201 | no interleaving, aborts included, takes a tenant from an active owner to none |
| LastOwner.CommitIsSerial | src/server/modules/admin/users.ts:183-200 | every commit is the update as if run alone at that moment |
| LastOwner.RefusalIsRight | src/server/modules/admin/users.ts:159-181 | with users unchanged meanwhile, a removal is refused exactly when no other active owner exists |
| LastOwner.RefusedOnlyRemovals | src/server/modules/admin/users.ts:154-181 | in no interleaving is an update refused that takes ownership from nobody |
| Redaction.Redactor.RedactValue | src/server/observability/logger.ts:187-251 | the marking walk terminates on every graph, unmarks what it marked and computes the specification |
| Redaction.Redactor.RedactFields | src/server/observability/logger.ts:222-246 | the loop over keys, in order, dropping what must be dropped |
| RedactionSafety.RedactSafe | src/server/observability/logger.ts:254-269 | output of any graph holds scrubbed strings only and nests at most eight deep; which keys are left out, masked and hashed is stated by `RedactionNames.RedactShows` and `RedactionNames.RuleIff` |
| RedactionNames.RedactShows | src/server/observability/logger.ts:187-251 | on every graph and at every depth, no key spells a signing-key name, one that spells a secret name shows the placeholder, one that spells a fingerprint name the hash of that field or the placeholder, anything else the scrubbed value it stems from; and no secret, readable fingerprint or readable plain value beside it is missing |
| RedactionNames.Survives | src/server/observability/logger.ts:221-246 | a plain value at the end of any chain of at most eight records, under keys that spell no listed name, is shown under the same keys |
| RedactionNames.SpellsIff | src/server/observability/logger.ts:42-44 | the normalized key is a name exactly when the key spells it: letters in either case, digits, separators anywhere |
| RedactionNames.RuleIff | src/server/observability/logger.ts:225-240 | each rule applies exactly to the keys that spell a name of its list, and the lists do not overlap |
| RedactionNames.InUse | src/server/observability/logger.ts:38-44 | `token` and `x-api-key` are masked, `keyId` is left out, `fingerprint` is hashed |
| RedactionNames.ErrorFieldsAre | src/server/observability/logger.ts:172-184 | the fields an error is shown as |
| RedactionSafety.SecondPassIff | src/server/observability/logger.ts:284-293 | a second pass is the identity exactly when every fingerprint field holds its own hash |
| RedactionSafety.SecondPass | src/server/observability/logger.ts:284-303 | hence wherever no fingerprint field is left, and nowhere else if no string is its own hash |
| RedactionNames.FingerprintHashedTwice | src/server/observability/logger.ts:235-238 | two passes over one fingerprint show the hash of the hash |
| RedactionNames.SpellingIgnored | src/server/observability/logger.ts:38-44 | separators and letter case anywhere in a key change neither its rule nor what it spells |
| Audit.WrapRoundTrip | src/server/modules/admin/audit.ts:37-46 | base64url and UTF-8 undo the wrapping of a cursor |
| Audit.CursorRoundTrip | src/server/modules/admin/audit.ts:37-51 | a cursor reads back as its row's position, rounded down to the millisecond |
| Audit.AuditLog.ListAuditEntries | src/server/modules/admin/audit.ts:57-128 | the collected clauses, the extra row and the cut yield the specified page |
| Paging.PagesRefineListing | src/server/modules/admin/audit.ts:53-128 | n pages are the first n times the page size rows of the full listing while newer rows are appended |
| Paging.EachExactlyOnce | src/server/modules/admin/audit.ts:53-128 | following cursors to the end yields each row within the times, the kind and the actor asked for exactly once, in descending order of time and id |
| Paging.NextPageIff | src/server/modules/admin/audit.ts:37-51 | whatever the fractions of a millisecond, the next page goes on with the rest exactly when no later row of the cut row's millisecond lies past its beginning |
| Paging.FollowingCompleteIff | src/server/modules/admin/audit.ts:53-128 | with enough requests, a whole following yields the full listing exactly when no page ends so, and otherwise misses a row for good |
| Paging.SameMillisecondLost | src/server/modules/admin/audit.ts:37-51 | two rows of one millisecond of which the second is never listed |

## Left out

- Cryptography: Ed25519, HMAC, scrypt and SHA-256 are predicates and functions given from outside.
- HTTP routes, authentication, rate limits, request parsing, cookies and CSRF, metrics and tracing.
- SQL and row-level security: a tenant's tables are maps with unique keys; one transaction is one step except in `Seats` and `LastOwner`, where each statement is one.
- Several tenants: the workers' outer loops over tenants, their timers and their log-and-go-on error handling.
- Audit rows, security events, policy hooks, leases, usage metering, resellers, the signing service and the provider adapters.
- Catalog and API-key lifecycle, configuration loading, FFI, UI and generated code: single-branch checks that would only add easy members.
- Ids: the subscription table is keyed by its unique (provider, external id), license ids come from a counter instead of random UUIDs, and the revoked sets of `CrlRuns` hold those ids while `CrlBytes` works on strings.
- Fractions of a second: with fractional times the floor in the stale check and the SQL guard no longer agree; event times and grace settings are integers.
- CrlRuns.CrlWorker.RunOnce: the outer loop over tenants is left out; a fault of the candidate query is a sweep over no product.
- CrlRuns.LogHolds: one publication is one step, as the worker's running guard gives within a process; two interleaved publishers are not modelled.
- Json.CanonicalIsPrinted: values that JSON cannot say (non-finite numbers, functions, undefined) are not in the value type, and numbers are integers, printed in decimal.
- JsonReader.CanonicalRoundTrip: the reader refuses fractions and exponents, which the printer never writes for integers.
- CrlBytes.StoredReencodes: the ISO form of a time is a function given from outside.
- Cbor.Reader.Read: numbers at and above 2^53, which JavaScript rounds, keep their exact value; a second assignment to `__proto__` after a null one and objects with their own `toString` as map keys are not modelled; the recursion depth is unbounded.
- Lic1RoundTrip.Lic1RoundTripIff: texts are sequences of characters, so lone surrogates in claims do not occur; key order of entitlements is any order (the two issuers sort differently outside ASCII).
- Enforcement.EnforcementService.Run: the activation is resolved by the caller, also when it is named by its machine-bound token.
- SeatAccess.SeatService.Activate: the credential is whatever the signer answers; the claims it is built from are modelled for the short-lived tokens, which share their builder.
- Billing.Tenant.Dispatch: inherited property names in the plan map of a connection are not modelled.
- LastOwner.NeverOwnerless: one lock per user row stands for the locks on the user and its role rows, which only its holder changes; a new user becomes visible in one step.
- LastOwner.RefusalIsRight: an owner promoted while the owners are being locked is not counted by the code, so a refusal can be too careful then; it is stated for unchanged users.
- RedactionSafety.SecondPassIff: the scrubber is any function that leaves its own output and decimal numbers alone; prototypes set by assigning to `__proto__` are dropped, as serialization drops them.
- Audit.AuditLog.ListAuditEntries: what the runtime makes of a string that is not base64url, and the syntax of times and ids, are functions given from outside; the theorems need only that they undo the encoder.
