# Verification model of the sandbox scheduler

A Dafny model of the parts of the sandbox scheduler whose correctness spans several functions and
unbounded executions, with proofs of what they promise:

- **Claims.** `ClaimProtocol` is the automaton of one claim flight: which provider calls it may
  make next, and what each reply leads to. `ClaimSystem` is every key, flight, provider and the
  flight cache together, over all runs; its main theorem is that one idempotency key never yields
  two sandboxes. `ClaimAttempt`, `ClaimProbe`, `ClaimVetting`, `ClaimChoice`, `ClaimLoop` and
  `ClaimFlight` are the binder's own loops and mutually recursive calls; through `ClaimEnv` they can reach a provider
  only by a call the automaton allows, and every call, wait, token and question is logged.
  `ClaimFlight.Execute` proves the log a path of the automaton whose first decision follows the
  clock, and `ClaimFlight.FlightOfTheSystem` that such a log is a run of `ClaimSystem`.
  `FlightCache` is the cache of flights with its two eviction loops, `Backoff` the recovery
  backoff, and `FakeProviders` the in-memory provider, which meets the contract that `ClaimSystem`
  assumes.
- **Reservations.** `LedgerCas` is the lock-free ledger with every successful compare-and-swap as
  one step of any number of threads. `Tickets` is the same ledger with atomic calls, refined to a
  plain log of tickets; `LedgerSolo` shows that an uninterrupted call is the atomic one. `Ledgers`
  is the object with its rings, `Rings` their sizes and masks, `ColdStarts` the ring that forgets.
- **Registry, coalescer, health.** `Registries` and `RegistryRuns` are the polling registry with
  source generations and stale fetches, `RegistryReports` what a report frees and which
  reservations outlive it, `LateAnswers` a run where one does not, `PollTimes` when a provider is
  polled and how long it counts as heard from, `PollingRegistry` the registry's object;
  `Coalescing` the batched lookups with timers that cannot always be stopped; `Health` the windowed
  claim health.
- **Scheduling.** `Framework` (filter, score, pick, order), `Policies` (validation and
  compilation), `Scoring` (what the built-in filters and scorers say of a candidate), `Service`
  (decide, reserve, decide again).
- **Encodings and reaper.** `Encoding` is about the bytes hashed for a spec and a configuration,
  `Reaping` about collecting over offset pages and deleting up to a cap.

An object of the program that is updated in place is a class whose methods are proved against
functions on values; the theorems over all runs are about those functions. `Books`, `Words` and
`Text` hold shared vocabulary: packed 32-bit words, sums, byte-ordered strings, sorting.

## What is assumed of the world

The run theorems of `ClaimSystem` assume, as the definitions `Enabled`, `Contract` and `Initial`
say:

- A provider's claim is idempotent on its key, a kind that spills created nothing, "not found" is
  definitive, and whatever an attempt did is done when the attempt ends.
- A sandbox is gone by the replay expiry of the claim that returned it, and only a sandbox that is
  gone or going is reported deleted.
- A client that got an error sets the retry flag until it succeeds; `RetryIsNeeded` shows why.
- The set of claim-capable providers does not change, and providers put their own name on handles.

Elsewhere: a snapshot lists each provider once (`PollingRegistry.Registry.Snapshot` proves it of
the registry); each pass of the claim loop takes at least one tick of the clock, which is what its
termination rests on, since a pass that loses its reservation race makes no other progress; a
completed sleep reaches its wake time; byte strings and maps have lengths that fit in an int; a
hash-derived sandbox name is not already taken by another key.

## What the code does not quite do

- `newRing` promises a ring of at least the seconds asked for. It has one exactly when they are at
  most 2^31; above that the 32-bit shift loses its bit and the ring has 8 buckets
  (`Rings.RingSizeCovers`).
- The in-flight cold count is the number of placements in the last window exactly when a whole
  window has passed since second 0, or there were none; before that the start of the window wraps
  and placements are missed (`ColdStarts.InFlightIsExact`). No real clock is that early.
- A ticket given back twice can take another request's reservation, exactly when carry is not
  empty and labelled at least that recent (`Tickets.SpentTicketStealsFromCarry`;
  `Tickets.SpentTicketRobs` is a run that gets there). The claim code never does it: a ticket can
  be released there only while it is held (`ClaimAttempt.AttemptProvider`).
- A reservation is said to last until a poll that started more than a grace period after it. It does
  (`RegistryReports.ReservationsOutliveReports`); but the answer of an earlier fetch may come after
  that poll, or after a push, and then shows the sandbox available again, since answers are not
  ordered by when their fetches began. A fetch's answer leaves room for every reservation made since
  a grace period before it began if no report recorded before it clears later
  (`RegistryReports.ReportKeepsRecentTickets`); `LateAnswers.LateAnswerOverstates` is a run without.
- More warm capacity can lower an elastic provider's score: exactly when its own score for having
  none exceeds twenty points for each of the first few warm sandboxes
  (`Scoring.WarmerNeverLower`).
- A scorer's weight keeps the order of its scores exactly when a hundred times the weight fits in
  64 bits (`Scoring.OrderNeedsFit`); validation sets no upper bound.
- A caller's own requirements are enforced only under a policy that lists RequiredAttributes;
  otherwise they are silently without effect (`Policies.CallerRequirements`;
  `Policies.UnlistedRequirementIsIgnored` is such a request).
- At most one probe of a demoted provider is in flight as long as no claim succeeds during one
  (`Health.OneProbe`). A success clears the flag, and then a second probe can start beside the
  first (`Health.SecondProbe`, `Health.TwoProbes`).
- A duration within half a second of the largest one rounds to the second below, not to the
  nearest (`Encoding.NearestSecond`). The binder caps lifetimes far below that.

## Model

| member | source | states |
|---|---|---|
| `ClaimSystem.OneKeyOneSandbox` | pkg/binder/binder.go:499-609 | In every state of every run of any number of keys, flights and providers, at most one provider holds a live sandbox for a key. |
| `ClaimSystem.ClaimsGoWhereTheKeyIs` | pkg/binder/binder.go:1115-1407 | Whenever a claim is sent to a provider in any run, no other provider holds a live sandbox for that key. |
| `ClaimSystem.InvInEveryRun` | pkg/binder/binder.go:499-768 | In every run a sandbox of a key is always accounted for: its flight's place makes it safe, its client will retry, or its completed claim is cached or covered by the early-eviction mark. |
| `ClaimSystem.StepKeeps` | pkg/binder/binder.go:499-609 | Every step (clock, deletion, arrival, provider call, completion, eviction notice) keeps that invariant. |
| `ClaimSystem.SuccessKeeps` | pkg/binder/binder.go:568-602 | Completing a claim, with whatever evictions that causes, leaves every key's sandbox accounted for. |
| `ClaimSystem.ArriveKeeps` | pkg/binder/binder.go:545-566 | Joining or starting a flight, with the sweep of a crowded cache, leaves every key's sandbox accounted for. |
| `ClaimSystem.FlightIsARun` | pkg/binder/binder.go:730-768 | Any permitted flight, with providers that keep their contract, is a run of enabled steps of the system, from the state in which the key's flight begins to the one in which it ends. |
| `ClaimSystem.FlightStepsAreEnabled` | pkg/binder/binder.go:730-768 | Wherever a permitted flight has got to, whatever else went on meanwhile, its next call or decision is an enabled step that leads the system's flight where the log says. |
| `ClaimProtocol.SafeAdvances` | pkg/binder/binder.go:862-1046 | Each permitted call or decision of a flight, under the providers' contract, leaves at most one live sandbox and leads to a place that is safe again. |
| `ClaimProtocol.SafeShrinks` | pkg/provider/provider.go:95-123 | A sandbox that disappears never makes a flight's place unsafe. |
| `ClaimProtocol.TryAdvances` | pkg/binder/binder.go:1473-1555 | From each place a claim may be sent, every reply leads where the attempt's code goes, kind by kind: a sandbox or a key conflict to the end, a key in deletion to the retries on that provider, an unknown outcome to the recovery, and no capacity, busy, unavailable or rejected on to placing the claim anew where the attempt may spill, and to the end where it may not. |
| `ClaimProtocol.MakesWayExactly` | pkg/binder/binder.go:1506-1555 | Along every permitted log, a flight that placed a claim is back where it may place another exactly when every call since shows that nothing was created: the last claim was refused with no capacity, busy, unavailable or rejected, and no claim met the key in deletion. |
| `ClaimProtocol.PermittedFlightIsSafe` | pkg/binder/binder.go:730-768 | Along any flight of permitted calls, pinned ones included, the key has at most one live sandbox at every point, although sandboxes may vanish meanwhile. |
| `ClaimProtocol.LoggedIsPermitted` | pkg/binder/binder.go:730-768 | A permitted call extends a permitted flight. |
| `ClaimProtocol.RetryIsNeeded` | pkg/binder/binder.go:756-764 | A concrete pair of flights that ends with two sandboxes when the second neither retries nor looks first: the client's retry is a needed assumption. |
| `ClaimAttempt.AttemptProvider` | pkg/binder/binder.go:1434-1556 | A provider seen warm that is not elastic is claimed on with one reservation more than before, just made, and any other with none and with a rate token just taken; another decision is asked for exactly on a refused reservation or token. Every call is one the automaton allows. What an ended attempt reports is what the provider's last reply to a claim or lookup says; failing that, an outcome left unknown or a key left in deletion only when time was up, the request cancelled, a token refused or a wait would have reached the deadline, or a retry denied after its wait. The reservations held afterwards are those held at the last claim exactly when it succeeded, its outcome is unknown or the provider itself answered no capacity, and else those held before; a success is warm exactly when it claimed with a reservation. It spills only on the provider's word that nothing was created, and reports that word. It spills exactly when, by the log of its calls, its last one was refused with no capacity, busy, unavailable or rejected and none of its claims met the key in deletion. |
| `ClaimAttempt.ClaimNow` | pkg/binder/binder.go:1470-1555 | A claim sent with the ticket at hand leaves the outcome unknown with the ticket kept, the key being deleted with the ticket given back, or a settled answer or spill that is what the reply says, with the ticket accounted for by it; which of these is fixed for every reply, a spill included. |
| `ClaimAttempt.Acquire` | pkg/binder/binder.go:1451-1468 | A cluster provider seen warm is attempted only with a reservation; any other only with a claim-rate token. |
| `ClaimAttempt.Prepare` | pkg/binder/binder.go:1607-1647 | A retry goes ahead only after sleeping the wait the provider asked for, or 100ms, and then exactly what a retry must ask for: a reservation, and failing that, unless warm-only, a rate token; a denial holds nothing. |
| `ClaimAttempt.RetryPinnedKeyBusy` | pkg/binder/binder.go:1596-1726 | Retries only on the provider that is still deleting the key, never spills, and ends the flight with what the last reply says; else it reports the key busy or the outcome unknown only when halted by time, cancellation or a refused token after a reply that says so, and no capacity or an exceeded rate only after a retry's wait was slept through and then its reservation or token refused. The same accounting of reservations holds across all its retries and recoveries; it begins no wait that reaches the deadline, and terminates on deadline minus clock together with the recovery. |
| `ClaimAttempt.RetryOnce` | pkg/binder/binder.go:1608-1716 | One retry: halted before its claim; else the wait that the last reply asked for, or 100ms, has been slept through, and the retry was denied, still in deletion with time gone by and nothing held, or settled with a reason that rests on the last reply. |
| `ClaimAttempt.RecoveryStep` | pkg/binder/binder.go:1746-1905 | A step that goes ahead has drawn on the retry budget, slept a backoff below its ceiling and drawn a lookup token, looks the key up on the provider, and claims again exactly if it is not found. It leaves the outcome unknown with the reservations as they were, the key being deleted with the ticket given back, or a settled answer or spill that is what the last reply says, with the ticket accounted for by it; it stops short only when halted. What it finds is fixed for every reply to its lookup and to its claim. |
| `ClaimAttempt.RecoverUnknownOutcome` | pkg/binder/binder.go:1728-1914 | Begun while the outcome is unknown, it ends with the flight over or, if allowed, with a spill on proof that nothing was created, and reports what the last reply to a lookup or claim says; the reservation is kept exactly on success, while the outcome stays unknown, and on the provider's own no capacity; the outcome stays unknown only when the recovery was halted, and a denial is reported only of a retry that was waited for; terminates on deadline minus clock. |
| `ClaimAttempt.RecoverOnce` | pkg/binder/binder.go:1746-1905 | One recovery step with the retries of a key found in deletion: halted, still unknown with the reservations as they were, or settled with a reason that rests on the last reply. |
| `ClaimAttempt.SaysWhatItHeard` | pkg/binder/binder.go:1499-1555 | Each kind of refusal is reported under its own reason and no other kind under that reason. |
| `ClaimAttempt.Refuse` | pkg/binder/binder.go:1473-1555 | A refused claim gives its ticket back for every kind but the provider's own no-capacity, and is reported by its kind. |
| `ClaimAttempt.Sleep` | pkg/binder/binder.go:1613-1619 | A completed sleep is slept for at least the wait asked for and leaves strictly less time; no sleep is begun that would reach the deadline, and a sleep not completed was cut short or for that reason not begun. |
| `ClaimAttempt.BackOff` | pkg/binder/binder.go:1746-1782 | A recovery step goes ahead only through these three, in order: a token of the retry budget, a sleep that is positive, below the step's ceiling and over before the deadline, and a lookup token, waited for if need be. |
| `ClaimAttempt.Reacquire` | pkg/binder/binder.go:1621-1647 | A retry on a provider that is not elastic asks for a warm reservation first; without one, a warm-only retry is denied, and any other asks for a claim-rate token and goes ahead exactly if it gets one. |
| `ClaimAttempt.ClaimAgain` | pkg/binder/binder.go:1804-1829 | The repeated claim is sent only from a confirmed not found, only before the deadline, and without a warm ticket, or on an elastic provider, only with a claim-rate token that was promised and waited for; otherwise nothing is sent, and only because it was halted. |
| `Backoff.CeilingIsCappedDoubling` | pkg/binder/binder.go:1748-1757 | For every step, however large, the 64-bit shift with wrap-around and sign check yields exactly min(2s, 100ms doubled step times). |
| `ClaimProbe.LookupPinned` | pkg/binder/binder.go:770-860 | A capable pinned provider is asked, after a lookup token that comes before the deadline, unless the token is denied. Not found leads to a claim on it; a sandbox found there is returned exactly when a snapshot read now lets it serve the request, and else answered as excluded; any other reply is answered by its kind. |
| `ClaimProbe.AwaitLookupTokens` | pkg/binder/binder.go:1049-1080 | A round goes ahead only on tokens promised before the deadline and waited for; a denial says why: no time, no token, none soon enough, or a wait that was cut short. |
| `ClaimProbe.LookupRetryAll` | pkg/binder/binder.go:862-1046 | Unless the lookup tokens are denied, the log shows every claim-capable provider asked; the first one that has the sandbox decides by adoption, and otherwise the verdict on all replies decides between a claim anywhere, a claim on the one in doubt, and the error called for. |
| `ClaimProbe.AskAll` | pkg/binder/binder.go:867-931 | Every claim-capable provider is asked exactly once, unfiltered, and each reply is kept under the provider that gave it. |
| `ClaimProbe.Classify` | pkg/binder/binder.go:981-1002 | Busy and key-busy replies are detected exactly; nothing busy and nothing inconclusive means every reply was not found; one inconclusive reply is identified and all others were not found. |
| `ClaimProbe.Judge` | pkg/binder/binder.go:965-1046 | The verdict of a round without a sandbox: a conflict first, then busy, then all clear, then the one inconclusive provider exactly if there is just one. |
| `ClaimProbe.Conclude` | pkg/binder/binder.go:1004-1045 | Claims anywhere exactly when every provider said not found; on the single inconclusive one exactly when a snapshot read now accepts it; and otherwise answers with the reason the verdict calls for. |
| `ClaimProbe.Adopt` | pkg/binder/binder.go:943-963 | A found sandbox is returned exactly when a snapshot read now lets it serve the request; otherwise the flight ends with a constraint error. |
| `ClaimChoice.Gather` | pkg/binder/binder.go:1166-1210 | Every provider of the snapshot is asked about, in order, exactly as far as it takes to settle whether it goes in, and the questions are on the flight's log. The candidates are exactly those that the answers let in, distinct, within the pin, not excluded, with only missing templates filled in; those kept out for their rate or cooldown are reported so. |
| `ClaimChoice.FeasibleFits` | pkg/binder/binder.go:1182-1213 | Whatever the compiled policy accepts among the candidates meets the policy's requirements and template in the snapshot itself, and is warm for a warm-only request. |
| `ClaimChoice.Decide` | pkg/binder/binder.go:1148-1235 | A pick is a rightful choice of the compiled policy among exactly the providers that the logged answers let in; nobody is picked only if every provider the policy lets through was turned away by such an answer; no providers and an unusable policy are answered exactly when that is so. |
| `ClaimChoice.PickFits` | pkg/binder/binder.go:1182-1235 | Whoever is picked is claim-capable, within the pin, not excluded, meets the policy's requirements and template in the snapshot itself, and is warm for a warm-only request. |
| `ClaimChoice.NobodyIsLeft` | pkg/binder/binder.go:1148-1232 | When none of the candidates passes, every provider of the snapshot that passes the hard filters, and is not barred, was turned away by its last answer. |
| `ClaimLoop.Exhausted` | pkg/binder/binder.go:1334-1406 | With the counters kept exact, the final error is Rejected, Busy or Unavailable exactly when every provider that spilled gave only the reasons that call for it, else Busy when some provider was cooling down, else NoCapacity. |
| `ClaimLoop.AnswersTheKinds` | pkg/binder/binder.go:1291-1330 | In the providers' own kinds: rejected if all rejected the claim; busy if all rejected it or were busy; unavailable if all rejected it, were busy or unavailable; else busy if some provider was cooling down, and else no capacity. |
| `ClaimLoop.AddSpill` | pkg/binder/binder.go:1306-1327 | Each spill is recorded under its provider and the three counters stay equal to the number of providers with that reason. |
| `ClaimLoop.TakePass` | pkg/binder/binder.go:1133-1328 | One pass reads a snapshot, decides for nobody who has spilled or is full, asks the pick for a slot and attempts it exactly if it has one. It either ends the flight with that attempt's sound answer, or stops for the reason on record, or goes on; what it asked, saw and came to is one more turn of the record, which the loop's own counts of spills, full, cooling and over-rate providers agree with. |
| `ClaimLoop.Run` | pkg/binder/binder.go:1115-1407 | The loop terminates and ends the flight, and every question it asked and snapshot it read is in the record of its passes. Its answer is the last attempt's; or else it is what that record comes to: no providers in the last snapshot, an invalid policy, slots still full after waiting once, a provider kept out for its rate, or what the spills and the cooldowns call for; and if the last pass did not stop it, then its spills are used up, time is up, or the client has gone after a spill. Any success met the policy in a snapshot read meanwhile, and a warm one holds a reservation that was not held before. An attempt was the last word only if it was not refused in a way that creates nothing, or met the key in deletion; any other refusal leads to another pass or to what stops the loop. |
| `ClaimLoop.TryPicked` | pkg/binder/binder.go:1292-1304 | A picked provider is asked for a slot, left alone exactly if it has none, and otherwise attempted; a spill is remembered under its name. |
| `ClaimLoop.TrailGrows` | pkg/binder/binder.go:1133-1332 | A pass that decides for nobody who has spilled or is full, after passes that let the loop go on, extends the record. |
| `ClaimVetting.PassesCandidateFilters` | pkg/binder/binder.go:2181-2224 | Reads one snapshot and says yes exactly when it lists the provider, or the provider is configured, the policy is usable and every filter but the warm-only one accepts it; then it meets the policy's requirements and offers the template. |
| `ClaimVetting.PassingFits` | api/v1alpha1/convert.go:90-136 | Leaving out the warm-only filter still enforces every policy requirement and the template. |
| `ClaimVetting.AcceptedFits` | pkg/binder/binder.go:2181-2224 | Whatever a snapshot accepts meets the policy's requirements and offers the template in it, also for a provider the snapshot does not list. |
| `ClaimVetting.AcceptsExactly` | pkg/binder/binder.go:2176-2223 | A snapshot accepts an existing sandbox exactly on a listed or configured provider, under a valid policy, that meets all the policy and the request ask but warm capacity. |
| `ClaimVetting.OffersWhat` | pkg/binder/binder.go:2195-2211 | A provider offers the templates it reports, or the configured ones if it reports none. |
| `ClaimFlight.LookFirst` | pkg/binder/binder.go:747-764 | A pinned provider is looked up. Otherwise the log begins with the decision the clock and the early-eviction mark call for; on a retry or an unexpired early eviction every claim-capable provider is asked next and the replies decide, unless the lookup tokens are denied; any other request goes straight to placing with no snapshot read. |
| `ClaimFlight.Execute` | pkg/binder/binder.go:730-768 | The log of a whole flight is a path of permitted calls from its start to its end, at which the automaton holds the sandbox answered with. It begins with the lookups the request calls for at the time it began, by clock and early-eviction mark; its answer is theirs, or else how the loop after them ended by its record. Earlier reservations are kept and a warm success holds one more; any success met the policy in a snapshot read during the flight. |
| `ClaimFlight.FlightOfTheSystem` | pkg/binder/binder.go:730-768 | The log of an unpinned flight, played from any state that meets the invariant, with the mark the flight read and providers that keep their contract, is a run of the system's own steps in which the invariant holds throughout. |
| `ClaimFlight.Join` | pkg/binder/binder.go:659-728 | A joiner with the same spec, admitted and not cancelled, gets the shared sandbox as a replay exactly when that is within its pin, warm if it must be, and accepted by its own policy in the one snapshot read now; a failed flight's error is passed on, and every other refusal has its own reason. |
| `FakeProviders.Fake.Claim` | pkg/provider/adaptertest/fake.go:127-181 | Under every injected fault the reference provider keeps the claim contract: idempotent per key, spilling kinds create nothing, at most a lost reply leaves the outcome unknown, and no other key changes. |
| `FakeProviders.Fake.Lookup` | pkg/provider/adaptertest/fake.go:183-198 | The reference provider's lookup keeps the contract: not found exactly when no record exists. |
| `FlightCache.InvInEveryRun` | pkg/binder/binder.go:548-609 | In every run: every completed flight is listed for eviction, no more than the cap are cached, and each claim that completed, has not expired and was not deleted is cached or now is before the early-eviction mark. |
| `FlightCache.EnforceKeeps` | pkg/binder/binder.go:614-651 | Both eviction loops together keep every flight in progress, forget nothing unexpired without covering it, and leave at most the cap. |
| `FlightCache.DropFrontKeeps` | pkg/binder/binder.go:615-630 | The first eviction loop terminates despite stale and repeated entries and drops expired flights only. |
| `FlightCache.EvictOldestKeeps` | pkg/binder/binder.go:631-644 | The second eviction loop terminates, drops completed flights only, raises the mark to cover every unexpired one, and ends within the cap or with nothing listed. |
| `FlightCache.BeginRemembers` | pkg/binder/binder.go:548-566 | Starting a flight, with the sweep, forgets no unexpired completed claim. |
| `FlightCache.ReplayedUntilItEnds` | pkg/binder/binder.go:585-600 | In every run, until its replay ends a claim that succeeded is answered with its own sandbox, unless that was deleted, or evicted early and so looked up. |
| `FlightCache.ReplayEnds` | pkg/binder/binder.go:585-588 | A claim is replayed for its lifetime, but not past its sandbox's expiry if that is still to come. |
| `FlightCache.JoinedUntilItEnds` | pkg/binder/binder.go:550-556 | A running flight is always joined and a completed one just until its replay ends. |
| `FlightCache.EvictsOldestFirst` | pkg/binder/binder.go:631-643 | The second loop works off the listing from the front: it forgets just the completed flights named there, leaves the cache full if it forgets any, and moves the mark only to the expiry of one that had yet to expire. |
| `FlightCache.EvictsOnlyWhenFull` | pkg/binder/binder.go:614-643 | A cache that fits loses nothing but what has expired, and its mark stays. |
| `FlightCache.Flights.Enter` | pkg/binder/binder.go:546-571 | The locked section joins the key's flight exactly when it has one that is not expired, and otherwise starts one as specified. |
| `FlightCache.Flights.Complete` | pkg/binder/binder.go:584-602 | The locked section caches the result until its lifetime or the sandbox's own earlier expiry and enforces the cap as specified. |
| `FlightCache.Flights.EnforceCap` | pkg/binder/binder.go:614-651 | The two in-place loops compute exactly the specified eviction. |
| `FlightCache.Flights.EvictHandle` | pkg/binder/binder.go:2019-2034 | Forgets exactly the completed flights of the named sandbox, in whatever order the map is visited. |
| `LedgerCas.ConservedInEveryRun` | pkg/registry/ledger.go:200-297 | Under every interleaving of all calls at the grain of their swaps, outstanding equals the bucket counts plus carry plus what threads hold between two swaps. |
| `LedgerCas.NothingWraps` | pkg/registry/ledger.go:202-250 | In every reachable state no decrement underflows, no count overflows 32 bits, and a successful reserve leaves outstanding at most the warm value of the same word. |
| `LedgerCas.NothingDroppedInEveryRun` | pkg/registry/ledger.go:200-340 | In every interleaving of reserves, reports and polls, every reservation at or after all cutoffs so far is in its bucket, in transit or in carry. The second that carry is labelled with is one of those it carries. |
| `LedgerCas.NeverOverstated` | pkg/registry/registry.go:88-99 | Hence what is shown available never exceeds warm minus those reservations, also between the two halves of a report. |
| `LedgerCas.PollFrees` | pkg/registry/ledger.go:303-340 | When a clearing is over, in every run of every call, outstanding is no more than what is from the cutoff on, what is on its way and the older counts others set down meanwhile; all the rest of warm is shown available. |
| `LedgerCas.PollFreesReservations` | pkg/registry/ledger.go:299-340 | In every run without releases, with the latest cutoff: outstanding lies between the reservations made from the cutoff on and those plus the ones carried along, set down meanwhile or on their way. |
| `LedgerCas.SweptInEveryRun` | pkg/registry/ledger.go:311-333 | All through a clearing, what it has passed holds no more counts from before its cutoff than others set down since. |
| `LedgerCas.StepConserves` | pkg/registry/ledger.go:200-340 | Any single swap by any thread keeps the conservation law. |
| `LedgerSolo.SoloReserve` | pkg/registry/ledger.go:202-277 | A reserve whose swaps no other thread interrupts leaves the ledger and gives the answer of the atomic reserve. |
| `LedgerSolo.SoloReleaseAt` | pkg/registry/ledger.go:218-267 | A ticket release whose swaps no other thread interrupts leaves the ledger and gives the answer of the atomic release. |
| `LedgerSolo.SoloRelease` | pkg/registry/ledger.go:231-237 | A release without a ticket, walking back over the ring, leaves the ledger and gives the answer of the atomic one when no other thread interrupts. |
| `LedgerSolo.SoloClearBefore` | pkg/registry/ledger.go:299-340 | A poll's clearing whose swaps no other thread interrupts is the atomic clearing. |
| `Tickets.RefinesAfterEveryRun` | pkg/registry/ledger.go:200-340 | After any sequence of atomic calls giving each ticket back at most once, the ledger stands for the plain log of open tickets: per live second, open tickets equal bucket plus carried counts. |
| `Tickets.LiveTicketsCanBeGivenBack` | pkg/registry/registry.go:412-438 | In every reachable ledger an open ticket at or after the largest cutoff can be given back and frees exactly one reservation. |
| `Tickets.LiveReleaseRefines` | pkg/registry/ledger.go:218-229 | Releasing a live open ticket succeeds, lowers outstanding by one and removes just that ticket from the log, even once its bucket wrapped into carry. |
| `Tickets.StaleReleaseRefines` | pkg/registry/ledger.go:222-230 | Releasing a ticket from before the largest cutoff never removes a live one. |
| `Tickets.SpentTicketStealsFromCarry` | pkg/registry/ledger.go:252-267 | Giving back a live second with no open ticket takes somebody else's reservation exactly when carry is not empty and is labelled that recent: a ticket must be given back only once. |
| `Tickets.SpentTicketRobs` | pkg/registry/ledger.go:252-267 | A reachable ledger of eight buckets, four reservations and one ticket given back, in which giving it back again takes another's reservation, whose own ticket then cannot be given back. |
| `Tickets.ReserveRefines` | pkg/registry/ledger.go:202-216 | A reserve below the warm value adds exactly one ticket to the log and stays within warm. |
| `Tickets.ClearRefines` | pkg/registry/ledger.go:299-340 | Clearing loses no open ticket at or after the new largest cutoff, and leaves outstanding just the counts from the cutoff on and those carried with one that recent. |
| `Tickets.ClearFrees` | pkg/registry/ledger.go:299-340 | Clearing frees every count from before the cutoff and no other. |
| `Tickets.NothingCarriedWithinTheRing` | pkg/registry/ledger.go:78-110 | In every run whose reservations fall in one window of the ring's size, none is ever carried: each second has a bucket to itself. |
| `Tickets.KeepsTheLater` | pkg/registry/ledger.go:91-110 | A bucket keeps the later of two seconds and gives up the counts of the other, losing none. |
| `Tickets.NearestIsFirstMet` | pkg/registry/ledger.go:144-166 | The bucket a release takes from is the first non-empty one met going backwards. |
| `Ledgers.Ledger.constructor` | pkg/registry/ledger.go:55-69 | The rings have the sizes the durations call for; the cold ring reaches back a whole window exactly when the window is below 2^31 seconds. |
| `Ledgers.Ledger.TryReserve` | pkg/registry/ledger.go:200-216 | In place, reserves exactly when outstanding is below warm, with the specified effect on bucket and carry. |
| `Ledgers.Ledger.ReleaseAt` | pkg/registry/ledger.go:218-230 | In place, gives one reservation of that second back from its bucket, or from carry unless cleared, as specified. |
| `Ledgers.Ledger.Release` | pkg/registry/ledger.go:231-237 | In place, gives back one reservation from the nearest bucket or else from carry as specified, exactly when any is outstanding, and keeps outstanding equal to all counts. |
| `Ledgers.Ledger.TakeOne` | pkg/registry/ledger.go:142-166 | One trip round the ring takes a count from the first bucket backwards that holds any, and none exactly when the ring is empty. |
| `Ledgers.Ledger.ClearBefore` | pkg/registry/ledger.go:299-340 | In place, every count from before the cutoff is freed: no bucket and no carry is left with an earlier second, and outstanding is the count of the buckets from the cutoff on plus carry if its second is that recent. |
| `Ledgers.Ledger.SetWarm` | pkg/registry/ledger.go:176-193 | Stores the reported capacity clamped to 32 bits and leaves reservations alone. |
| `Ledgers.Ledger.InFlightCold` | pkg/registry/ledger.go:280-284 | Counts the cold ring from the start of the window. |
| `Rings.RingSizeCovers` | pkg/registry/ledger.go:76-84 | A ring is a power of two in size and covers the seconds asked for exactly when they are at most 2^31; beyond that it has 8 buckets. |
| `Rings.MaskIsSlot` | pkg/registry/ledger.go:91-93 | Masking with size - 1 is the remainder by the size. |
| `Rings.EverySlotVisited` | pkg/registry/ledger.go:144-148 | Counting down from any second reaches every slot, also where the unsigned subtraction wraps. |
| `ColdStarts.RingCounts` | pkg/registry/ledger.go:91-119 | For placements in order, the ring's counts from any second it still reaches equal those of the full history, although overwritten buckets are gone. |
| `ColdStarts.InFlightIsExact` | pkg/registry/ledger.go:277-284 | The in-flight cold count equals the placements of the last window exactly when a whole window has passed since second 0 or nothing was placed. |
| `RegistryRuns.StaleFetchChangesNothing` | pkg/registry/registry.go:500-528 | In every run, a fetch in flight when its source is replaced or removed never changes the registry when it answers. |
| `RegistryRuns.NeverCurrentAgain` | pkg/registry/registry.go:113-129 | Once replaced or removed, a source generation is never current again. |
| `RegistryRuns.OneFetchPerGeneration` | pkg/registry/registry.go:575-613 | In every run any two fetches that the polling loop has in flight for one generation of a source are the same one; for the current generation it has one exactly while the source's slot is taken. |
| `RegistryRuns.FailuresLoseNothing` | pkg/registry/registry.go:517-524 | Through any number of failed fetches and anything else, a provider keeps its report, its age and, second by second, every reservation its ledger stood for, in bucket or carry, until a report arrives, a reservation is given back, or it is removed. |
| `RegistryRuns.ReservingHoldsAll` | pkg/registry/ledger.go:200-216 | A reserve, also one that finds nothing warm, leaves a ledger that stands for every reservation it stood for before. |
| `RegistryRuns.LeavesOnlyByRemoval` | pkg/registry/registry.go:345-358 | A provider disappears between two states of a run only if it was removed between them. |
| `RegistryReports.ReservationsOutliveReports` | pkg/registry/registry.go:385-400 | In every run every ticket of second `since` or later that was not given back is still in its bucket or in carry, and what is shown of the reported capacity leaves room for all of them, as long as no fetch that was answered began, and no push came, more than a grace period after `since`. |
| `RegistryReports.ReportKeepsRecentTickets` | pkg/registry/registry.go:525-527 | When a fetch is answered, every ticket handed out since a grace period before it began is still held and left room for, if no report recorded before clears later; when a report is pushed, that is always so. |
| `RegistryReports.ClearedExactly` | pkg/registry/registry.go:385-394 | A ledger has been cleared up to no later a second than `since` exactly when no report recorded for it clears later. |
| `RegistryReports.WarmInEveryRun` | pkg/registry/registry.go:90-100 | In every run the capacity counted up to is the last one reported, clamped, and none before the first report. |
| `RegistryReports.NoneClearsLaterThanAPush` | pkg/registry/registry.go:362-367 | No report clears later than a push that comes after it. |
| `LateAnswers.LateAnswerOverstates` | pkg/registry/registry.go:500-527 | A run in which a push between a fetch and its answer clears a ticket handed out after the fetch began, and the answer then shows that sandbox available again. |
| `PollTimes.PolledEveryInterval` | pkg/registry/registry.go:575-613 | In every run a source polled or refreshed is polled again by the first pass that finds it has waited its own interval, the registry's or ten seconds and has no fetch in flight, and by none before, unless rescheduled. |
| `PollTimes.PollsWhenDue` | pkg/registry/registry.go:582-590 | A pass starts a fetch exactly of a source that is due and has none in flight. |
| `PollTimes.DueAtOnce` | pkg/registry/registry.go:258-280 | A source just added, and every free source when the loop starts, is due at once. |
| `PollTimes.IntervalBringsForward` | pkg/registry/registry.go:296-314 | A new interval brings the next poll forward if it is due sooner by it, and never puts it off. |
| `PollTimes.ReachableWhileFresh` | pkg/registry/registry.go:651-653 | In every run a provider is reachable for just as long after its last report as reports stay fresh. |
| `PollTimes.UnreachableUntilHeard` | pkg/registry/registry.go:276-279 | A provider that never reported is known, unreachable and shows nothing warm. |
| `PollTimes.ShowsWhatIsDeclared` | pkg/registry/registry.go:339-347 | The attributes, templates and price shown are those last declared, whatever the provider reports. |
| `PollTimes.ColdStartsShown` | pkg/registry/registry.go:649-650 | In every run the cold starts shown are the cold placements of the last window, when the ring reaches back that far. |
| `PollTimes.ElasticScore` | pkg/registry/registry.go:631-638 | A cold elastic provider scores what is configured, between 0 and 100, and 20 when nothing is. |
| `RegistryRuns.InvInEveryRun` | pkg/registry/registry.go:101-129 | Generations are unique and bounded, every source has an entry, and slots match the fetches in flight, in every run. |
| `PollingRegistry.Registry.AddSource` | pkg/registry/registry.go:258-279 | Adding or replacing retires the old source, hands out a new generation, makes it due at once and keeps what is known of the provider. |
| `PollingRegistry.Registry.RemoveSource` | pkg/registry/registry.go:349-358 | Removes the source and everything known of it, and nothing else. |
| `PollingRegistry.Registry.SetRefreshInterval` | pkg/registry/registry.go:296-313 | Changes one interval and only ever brings the next poll forward. |
| `PollingRegistry.Registry.Report` | pkg/registry/registry.go:362-367 | A pushed report replaces what was known, sets the capacity it reports, clamped, and frees exactly the counts from before a grace period ago. |
| `PollingRegistry.Registry.Record` | pkg/registry/registry.go:507-527 | The end of a fetch does nothing unless its source is still in use; a failure is noted and nothing else; a report replaces what was known, sets the capacity it reports, clamped, and frees exactly the counts from before a grace period before the fetch began. |
| `PollingRegistry.Registry.Finish` | pkg/registry/registry.go:595-606 | The end of the goroutine frees the slot only for the current generation. |
| `PollingRegistry.Registry.PollDue` | pkg/registry/registry.go:575-613 | Starts a fetch of exactly the sources that are due and free, and returns a wait that reaches, without passing, the time the next of the free ones falls due, bounded by a minute. |
| `PollingRegistry.Registry.Refresh` | pkg/registry/registry.go:473-496 | Starts one fetch of every source and postpones its next poll. |
| `PollingRegistry.Registry.Snapshot` | pkg/registry/registry.go:615-666 | Lists every known provider exactly once, in name order, stale ones included as unreachable with their last capacity less reservations. |
| `Coalescing.EveryLookupIsAnsweredOnce` | pkg/binder/slots.go:165-288 | In every interleaving of lookups, timers and flushes: a queue that is not empty has a flush to come; the n-th lookup is queued, with nothing sent to it, or in exactly one batch of at most a hundred consecutive ones, under its own key; once that batch is answered it has been sent just one answer: its own result by position, an error if the call returned too few, or the error of a call that was not made. |
| `Coalescing.StaysAttended` | pkg/binder/slots.go:171-220 | No step leaves a non-empty queue without an armed timer or a flush on its way, orphaned timers included. |
| `Coalescing.StaysInOrder` | pkg/binder/slots.go:203-220 | Every step leaves batches and queue together as all lookups in order of arrival, each with the key it asked for. |
| `Coalescing.DeliverSendsOnce` | pkg/binder/slots.go:269-288 | Answering a batch sends each of its lookups the answer at its own position, once, and nothing to anybody else. |
| `Coalescing.Coalescer.Lookup` | pkg/binder/slots.go:171-190 | The locked section queues the lookup and arms or replaces the timer as specified, asking for a flush exactly from the hundredth on. |
| `Coalescing.Coalescer.Flush` | pkg/binder/slots.go:197-222 | The locked section takes the front of the queue, at most 100, and leaves a timer armed exactly when something remains. It takes the whole queue, or a hundred if there are more. |
| `Coalescing.Coalescer.Reply` | pkg/binder/slots.go:224-288 | The p-th lookup of a batch is sent results[p], an omitted-result error if there are fewer results, or the call's error if there are none. |
| `Health.WindowIsExact` | pkg/binder/slots.go:372-378 | In every run the ring holds exactly the last min(n, 20) outcomes since the last reset, whatever stale slots the reset left, and counting its slots counts those outcomes. |
| `Health.DemotedExactlyWhenHalfFail` | pkg/binder/slots.go:347-361 | A provider becomes demoted exactly on an unavailable outcome when 20 have been seen since the reset and at least 10 of the last 20 were unavailable. |
| `Health.RestoredOnlyByEvidence` | pkg/binder/slots.go:335-345 | A demoted provider is restored exactly by a successful claim or a probe that reaches it. |
| `Health.BackoffAfter` | pkg/binder/slots.go:484-500 | After n failed probes in a row the next comes 2^n seconds after the last began, but no more than thirty. |
| `Health.OneProbe` | pkg/binder/slots.go:397-443 | As long as no claim succeeds while a probe is in flight, at most one probe is in flight, and the flag tells whether one is. |
| `Health.SecondProbe` | pkg/binder/slots.go:335-345 | From any run that has just recorded a success during a probe, a continuation starts another probe before the first one ends, its clock going forward. |
| `Health.TwoProbes` | pkg/binder/slots.go:335-345 | From any fresh tracker there is such a run, its clock never going back, over two backoffs: two probes are in flight at once. |
| `Health.AtLeastHalf` | pkg/binder/slots.go:380-391 | The ratio test is exactly that twice the failures reach the count. |
| `Health.HealthTracker.RecordUnavailable` | pkg/binder/slots.go:347-361 | In place, pushes the outcome and demotes as specified. |
| `Health.HealthTracker.UnavailableRatio` | pkg/binder/slots.go:380-391 | The loop's ratio is that of the counted slots. |
| `Health.HealthTracker.IsUsable` | pkg/binder/slots.go:397-432 | In place, a provider is usable exactly when not demoted; a probe is started exactly when it is due, may start and none is flagged. |
| `Health.HealthTracker.EndProbe` | pkg/binder/slots.go:472-497 | A probe that reaches the provider resets the window by its counters alone; any other doubles the backoff to at most 30s. |
| `Framework.Schedule` | pkg/framework/framework.go:253-329 | Returns a candidate that passes every filter with maximal clamped weighted total, or none exactly when none passes; its results are a sorted permutation led by the winner. |
| `Framework.Pick` | pkg/framework/framework.go:350-406 | The winner is the least name of a tie with a warm candidate; in a cold tie it was compared with a different best candidate that has at least as many cold starts in flight. |
| `Framework.ChoiceIgnoresOrder` | pkg/framework/framework.go:353-372 | With distinct names, a choice without a cold tie depends only on which candidates there are, not on their order. |
| `Framework.SkipIsABijection` | pkg/framework/framework.go:379-387 | Moving the second index past the first reaches every ordered pair of distinct indices exactly once. |
| `Framework.TakeLessLoaded` | pkg/framework/framework.go:378-400 | Compares two different tied candidates, the two drawn at random when more than two tied and both of them when only two did, and takes the less loaded. |
| `Framework.TotalIsExact` | pkg/framework/framework.go:279-294 | When 100 times the weights fits in 64 bits, the wrapping total is the exact weighted sum. |
| `Framework.WinnerLeads` | pkg/framework/framework.go:308-321 | The first line of the ordered results is always the choice. |
| `Framework.ListingIsAnOrder` | pkg/framework/framework.go:308-321 | The results' comparator is a strict weak order, so the stable sort is well defined. |
| `Framework.ListingReads` | pkg/framework/framework.go:309-323 | Sorted results list whoever passed before whoever was rejected, then greater totals, then the winner, then lesser names. |
| `Text.StableSortSorts` | pkg/framework/framework.go:308-321 | A stable sort by any strict weak order yields an ordered permutation. |
| `Text.LessIsLexicographic` | pkg/framework/framework.go:320-322 | A string is less exactly if it is a proper prefix or has the lesser byte where the two first differ. |
| `Text.SortedKeysUnique` | pkg/provider/provider.go:257-261 | A set of keys has one listing in byte order, so the order keys were collected in cannot matter. |
| `Policies.PolicyIsEnforced` | pkg/plugins/plugins.go:44-55 | Whatever a valid policy lets through meets every policy requirement, whatever the caller asked; offers the named template; and is warm for a warm-only request. |
| `Policies.CallerRequirements` | api/v1alpha1/convert.go:120-136 | The caller's own requirements are enforced exactly as far as the policy lists the RequiredAttributes filter: with it, all that the policy does not override; without it, they change nothing. |
| `Policies.UnlistedRequirementIsIgnored` | api/v1alpha1/convert.go:120-136 | A concrete valid policy and request whose attribute the candidate lacks and which is served all the same. |
| `Scoring.FeasibleExactly` | api/v1alpha1/convert.go:90-136 | A compiled policy lets through exactly who meets the requirements it binds, is reachable if it asks that, offers the template named and is warm if only warm will do. |
| `Scoring.CostToThePoint` | pkg/plugins/plugins.go:165-178 | Cost points are the hundredths of the dearest price that a candidate saves, rounded down: 100 when it is free or nothing costs anything, 0 when it is the dearest. |
| `Scoring.CheaperNeverLower` | pkg/plugins/plugins.go:165-178 | A cheaper candidate never scores lower. |
| `Scoring.WarmToThePoint` | pkg/plugins/plugins.go:114-140 | Twenty points for each warm sandbox up to five; without any, an elastic provider's own score within 0 to 100, 20 if it sets none. |
| `Scoring.WarmerNeverLower` | pkg/plugins/plugins.go:114-140 | More warm capacity never scores lower, except exactly when an elastic provider's own score exceeds twenty points for each of its first few warm sandboxes. |
| `Scoring.OtherScorers` | api/v1alpha1/convert.go:99-116 | Reachability and Affinity are worth 100 or 0 by their condition, and a listed weight of 0 counts as 1. |
| `Scoring.OrderNeedsFit` | pkg/framework/framework.go:286-294 | Weighting keeps the order of scores exactly when a hundred times the weight fits in 64 bits. |
| `Policies.Validate` | api/v1alpha1/convert.go:53-85 | Accepts exactly the policies that can be executed as written. |
| `Policies.BuildProfile` | api/v1alpha1/convert.go:90-117 | Compiles exactly the valid policies, with their filters and with scorers calibrated to the dearest candidate; what those filters and scorers say is `Scoring.FeasibleExactly`, `Scoring.CostToThePoint`, `Scoring.WarmToThePoint` and `Scoring.OtherScorers`. |
| `Policies.BuildScheduleProfile` | pkg/binder/binder.go:2155-2174 | Adds the template and warm-only filters the request calls for, and reports an unusable policy exactly when it is invalid. |
| `Policies.SelectPolicy` | api/v1alpha1/convert.go:143-163 | Fails exactly on a selector that cannot be parsed; otherwise picks a match of highest priority, least name among equals. |
| `Policies.SelectionIgnoresOrder` | api/v1alpha1/convert.go:143-163 | With distinct names, the governing policy does not depend on the order of the list. |
| `Policies.NewCost` | pkg/plugins/plugins.go:153-161 | The Cost scorer's reference is the dearest candidate's price, or zero. |
| `Service.DecideAndReserve` | pkg/scheduler/service.go:321-365 | The k-th effect is what the registry answered the k-th time: a refusal only on a no, a reservation only on a yes. The loop makes one pass per effect and one more if it places nothing, at most one per warm provider plus one; its copy differs from the snapshot exactly by zeroing the providers so refused; its answer is optimal over that copy; success leaves exactly one reservation or one cold record, as the copy showed warm capacity or not. |
| `Service.HandleSchedule` | pkg/scheduler/service.go:270-380 | A placement, under a valid policy only, is a rightful choice over a copy that shows exactly the providers empty that the registry's answers refused, with that choice's score; it meets the policy's requirements and offers the template in the snapshot, is warm and reserved on the registry's yes for a warm-only request, and leaves exactly one lasting effect. No candidates means nobody in that copy passes. |
| `Service.CheapestWins` | pkg/scheduler/service.go:270-380 | Under Cost alone, with a weight that fits, nobody who could have served the request is cheaper than who does by more than a hundredth of the dearest price. |
| `Service.WarmestWins` | pkg/scheduler/service.go:270-380 | Under WarmCapacity alone a placement that is not elastic has as many warm sandboxes as anybody who could have served the request, up to five. |
| `Service.PreferredWins` | pkg/scheduler/service.go:270-380 | Under Affinity alone the preferred provider serves the request if it can, and under Reachability alone a reachable one does if any can. |
| `Service.EmptyingRemoves` | pkg/scheduler/service.go:347-358 | Zeroing a provider that showed warm capacity leaves strictly fewer warm candidates. |
| `Service.WarmIn` | pkg/scheduler/service.go:728-736 | Says whether the chosen provider showed warm capacity. |
| `Encoding.SpecsAreIdentified` | pkg/provider/provider.go:248-272 | Two specs hash the same bytes exactly when template and labels are equal (nil as empty, key order irrelevant) and the lifetimes round to the same second. |
| `Encoding.ConfigsAreIdentified` | internal/controller/sandboxprovider_controller.go:458-478 | Two configurations hash the same bytes exactly when adapter, provider, endpoint and all three maps are equal. |
| `Encoding.MapIsPrefixFree` | internal/controller/sandboxprovider_controller.go:480-491 | Bytes that start with an encoded map start with one map only, and with one encoding of it. |
| `Encoding.FieldIsPrefixFree` | pkg/provider/provider.go:253-256 | Bytes that start with a length-prefixed field start with one field only. |
| `Encoding.NearestSecond` | pkg/provider/provider.go:267-268 | Rounding to the second is to the nearest, halves away from zero, except within half a second of the largest durations, where it stays at the last whole second that fits. |
| `Encoding.U64IsUnique` | pkg/provider/provider.go:267-268 | Eight big-endian bytes determine a number modulo 2^64. |
| `Encoding.SpecPreimage` | pkg/provider/provider.go:251-269 | The bytes written are an encoding of the spec. |
| `Encoding.ConfigPreimage` | internal/controller/sandboxprovider_controller.go:461-478 | The bytes written are an encoding of the configuration. |
| `Encoding.WriteMap` | internal/controller/sandboxprovider_controller.go:480-491 | The loop over sorted keys writes the encoding of the map. |
| `Reaping.ReapProvider` | pkg/reaper/reaper.go:264-357 | A pass deletes only expired sandboxes of its owner, the first ones in listing order among those its pages reach, never more than the cap, each let through by the rate limit and deadline and all up to the first that is not, and none in a dry run; its breaker trips exactly when the pages held more expired ones than the cap. |
| `Reaping.FullPass` | pkg/reaper/reaper.go:269-312 | When everything owned fits in the pages and no deletion is held back, a pass deletes exactly the first min(cap, n) of the n expired. |
| `Reaping.VictimsHaveExpired` | pkg/reaper/reaper.go:292-302 | Whoever a pass may delete has an expiry before now, and when the cap is not reached everybody in reach that has one is deleted. |
| `Reaping.Cycles` | pkg/reaper/reaper.go:219-262 | After c such passes n - c * cap expired sandboxes are left, or none, and everything else is as it was. |
| `Reaping.AllGoneAfter` | pkg/reaper/reaper.go:237-262 | All n expired sandboxes are gone after c passes exactly when c is at least n / cap rounded up. |
| `Reaping.Collect` | pkg/reaper/reaper.go:269-308 | Paging by offset collects the first expired sandboxes up to the cap and learns whether there was one too many. |
| `Reaping.ReleaseEach` | pkg/reaper/reaper.go:310-346 | Each listed sandbox is deleted at the version it was listed with, in order, as long as the rate limit and deadline let each one through and no further. |
| `FakeProviders.Fake.Release` | pkg/provider/adaptertest/fake.go:238-261 | Deletes the named sandbox only at the version asked for: a replacement that reused the name survives. |
| `FakeProviders.Fake.ListOwned` | pkg/provider/adaptertest/fake.go:264-306 | Pages of an owner's sandboxes in key order by offset, with the next offset or none. |
| `FlightCache.Flights.Sweep` | pkg/binder/binder.go:558-564 | Deletes exactly the expired flights, in whatever order the map is visited. |
| `Health.HealthTracker.RecordSuccess` | pkg/binder/slots.go:335-345 | In place, pushes the outcome and restores the provider as specified. |
| `Health.HealthTracker.Push` | pkg/binder/slots.go:372-378 | Writes one slot of the ring in place and moves on, as specified. |
| `PollingRegistry.Registry.Visit` | pkg/registry/registry.go:583-611 | One source of a polling pass: a busy one is left alone, a due one gets one fetch. |
| `Ledgers.Ledger.Record` | pkg/registry/ledger.go:269-275 | Counts a reservation in its bucket and carries whatever the bucket could not keep. |
| `Ledgers.Ledger.TakeAt` | pkg/registry/ledger.go:122-140 | Takes a count exactly when the bucket still holds that second. |
| `Ledgers.Ledger.TakeFromCarryAt` | pkg/registry/ledger.go:252-267 | Takes a count from carry exactly when it holds any and is labelled that recent. |
| `Ledgers.Ledger.Decrement` | pkg/registry/ledger.go:239-250 | Lowers outstanding by one exactly when it is positive. |
| `Ledgers.Ledger.RecordCold` | pkg/registry/ledger.go:277-279 | Counts a cold placement in its bucket and forgets what the bucket held before. |
| `Ledgers.SumSince` | pkg/registry/ledger.go:111-119 | Sums exactly the buckets of that second or later. |
| `Framework.Assess` | pkg/framework/framework.go:257-298 | Every candidate's result is its rejection or its total, and the feasible ones are listed in order. |
| `Framework.Score` | pkg/framework/framework.go:279-294 | The loop computes the clamped, weighted, wrapping total. |
| `Framework.Rejected` | pkg/framework/framework.go:261-277 | Rejects exactly when some filter does not accept. |
| `Framework.BestOf` | pkg/framework/framework.go:351-357 | The best index has maximal total and the least name among equals. |
| `Framework.TiedWith` | pkg/framework/framework.go:359-366 | Lists exactly the feasible candidates with the best total, and says whether all are cold. |
| `Service.Decide` | pkg/scheduler/service.go:321-335 | Decides a rightful winner over the working copy, or that nobody passes. |
| `Service.Empty` | pkg/scheduler/service.go:354-358 | Zeroes the warm capacity of one provider in the working copy and changes nothing else. |
| `Service.GiveUpOn` | pkg/scheduler/service.go:344-359 | A refused reservation leaves a working copy that still matches the refusals and has fewer warm candidates. |
| `Service.Settle` | pkg/scheduler/service.go:340-365 | A placement's one lasting effect is a reservation when the copy showed warm capacity and a cold record when it did not. |
| `ClaimAttempt.AwaitToken` | pkg/binder/binder.go:1768-1782 | Goes ahead only with a token promised and its time come, its delay slept through before the deadline; otherwise the token was refused, came too late or its wait was cut short. |
| `ClaimAttempt.Linger` | pkg/binder/binder.go:1608-1619 | The wait the provider asked for, or 100ms, has been slept through in full and ends before the deadline; otherwise the retry was halted. |
| `ClaimAttempt.Recheck` | pkg/binder/binder.go:1784-1804 | The recovery lookup leads to the found sandbox, to a confirmed not found, to a conflict's end, or leaves the outcome unknown. |
| `ClaimChoice.Admit` | pkg/binder/binder.go:1168-1209 | The questions put about one provider: none if the pin, an exclusion or the configuration bars it; then health; then refusals; then, only if the hard filters let it through, cooldown and, if it would need one, a rate token. The last answer settles its entrance. |
| `ClaimLoop.Stuck` | pkg/binder/binder.go:1234-1290 | A full provider's slot is waited for at most once and only if some provider is full; failing that the loop reports full slots, else an exceeded rate, else nothing. |
| `ClaimProbe.PinTo` | pkg/binder/binder.go:1025-1037 | The one inconclusive provider is pinned exactly when a snapshot read now accepts it, and then it met the policy in that snapshot; otherwise the outcome stays unknown. |
| `ClaimProbe.AnyConflict` | pkg/binder/binder.go:969-979 | Detects a key conflict exactly. |
| `ClaimVetting.FindCandidate` | pkg/binder/binder.go:2189-2206 | Finds the provider's entry in the snapshot, or knows that there is none. |
| `ClaimVetting.PassesFilters` | pkg/binder/binder.go:2213-2223 | Accepts exactly when every filter but the warm-only one does. |
| `Policies.HasFilter` | pkg/binder/binder.go:2310-2317 | Finds a filter by name exactly. |
| `Reaping.TakeExpired` | pkg/reaper/reaper.go:292-302 | One page's expired sandboxes are added in order up to the cap, and one more trips the breaker. |
| `Reaping.ReadPage` | pkg/reaper/reaper.go:278-308 | A page leads to the next offset, or to everything the pass can reach having been collected. |
| `Text.SortKeys` | internal/controller/sandboxprovider_controller.go:480-486 | Collecting a map's keys in any order and sorting them lists exactly the keys, in byte order. |

## Left out

- ClaimSystem.OneKeyOneSandbox: unpinned requests only; a pin the caller supplies may be stale, and then nothing looks elsewhere first.
- ClaimSystem.ClaimsGoWhereTheKeyIs: excludes removing a provider and releasing by key while the key is being claimed; both delete cached flights without regard to a flight in progress.
- ClaimAttempt.AttemptProvider: does not model recording a cold placement, refusals, cooldowns or health from here; the first is in `Service` and `Registries`, the others only ever keep a provider out of a decision.
- ClaimProbe.AwaitLookupTokens: the tokens of a round's providers are one reservation with the longest delay; giving the first ones back when a later one is refused is left out.
- ClaimChoice.Gather: the answers of the health, refusal, cooldown and rate checks are arbitrary; what follows from each answer is proved.
- ClaimLoop.TryPicked: whether a picked provider has a slot free is an arbitrary answer too.
- ClaimProbe.AskAll: asks in name order instead of concurrently; the automaton accepts every order and the replies are arbitrary.
- ClaimAttempt.RecoverUnknownOutcome: the retry budget and rate limiters are arbitrary answers; golang.org/x/time/rate is not part of this model.
- ClaimFlight.Join: the joiner counter is an arbitrary answer, and waiting for the flight is the flight's answer arriving.
- LedgerCas.NothingDroppedInEveryRun: runs without releases; a release that races a bucket moving to carry may take another ticket of the same age, so ticket identity is proved for atomic calls.
- Ledgers.Ledger.TakeOne: takes from the nearest bucket, not from the most recent second, since a bucket found on the way round may hold any second.
- RegistryRuns.FailuresLoseNothing: a ticket released after its provider was removed and added again meets a new ledger; tickets are not tied to one ledger here.
- PollingRegistry.Registry.PollDue: polled sources are values under their names, so a removed one cannot be reached again; the program's goroutines hold the old object, whose flag nobody reads.
- Reaping.FullPass: the clock stands still during a pass and nothing else changes the listing; with a moving clock more may expire between pages.
- Service.CheapestWins: like the other results about one scorer, for a weight whose products fit in 64 bits; with several scorers the placement has the greatest weighted sum (`Framework.TotalIsExact`) and no single one decides.
- LedgerCas.PollFrees: counts of an older second that others set down while the clearing runs stay until the next poll, as in the program.
- FakeProviders.Fake.Claim: the hook that intercepts calls is left out, and a name collision between keys is excluded.
- Framework.Schedule: the explanations and tie-break text are left out.
- Policies.NewCost: prices are real numbers, without floating-point rounding.
- Encoding.SpecsAreIdentified: stops at the bytes that are hashed; SHA-256 and its truncation are not modelled.
- Encoding.ConfigsAreIdentified: stops at the bytes that are hashed.
- Health.HealthTracker.IsUsable: the probe's slot and shutdown checks are one arbitrary answer.
- FlightCache.Flights.EnforceCap: compacting the listing's backing array is left out; it does not change the listing.
- Generations count without bound; the program's counter has 64 bits.
- The hold-off after an election, the global cap on claims, shutdown accounting and the slot limiter's queue: timing and bookkeeping around the claims.
- The default policy used when a request names none: a policy like any other here.
- HTTP routing and JSON, the network adapters, Kubernetes reconciling and status, metrics, logging: input and output around the modelled logic.
- The owner label's hash and label validation: same encoding as the spec's, and pattern matching.
